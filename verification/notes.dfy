/**
 * The sticky-notes page (app/notes/page.tsx): the list of notes, the new-note form and
 * the colour palette. The answer of the notes API is a parameter (whether the POST
 * succeeded, what a refetch returned); the clock is the parameter `now`.
 */
module Notes {
  import opened Wrappers
  import opened Strings
  import opened Sequences

  datatype StickyNote = StickyNote(
    id: string, content: string, author: string, color: string, x: int, y: int, createdAt: string)

  datatype ColorClasses = ColorClasses(name: string, bg: string, border: string, shadow: string)

  const Colors: seq<ColorClasses> := [
    ColorClasses("Yellow", "bg-yellow-200", "border-yellow-300", "shadow-yellow-200"),
    ColorClasses("Pink", "bg-pink-200", "border-pink-300", "shadow-pink-200"),
    ColorClasses("Blue", "bg-blue-200", "border-blue-300", "shadow-blue-200"),
    ColorClasses("Green", "bg-green-200", "border-green-300", "shadow-green-200"),
    ColorClasses("Purple", "bg-purple-200", "border-purple-300", "shadow-purple-200")
  ]

  /** The new-note form: content, author and the index of the chosen colour. */
  datatype NoteForm = NoteForm(content: string, author: string, color: nat)

  const EmptyForm := NoteForm("", "", 0)

  /** handleAddNote's guard: both fields must hold something besides white space. */
  predicate Fillable(form: NoteForm) {
    !IsBlank(form.content) && !IsBlank(form.author)
  }

  /**
   * The note handleAddNote builds at time `now` (milliseconds) and ISO time `createdAt`.
   * A colour index outside COLORS makes `COLORS[i].name` throw, so there is no note.
   */
  function NewNote(form: NoteForm, now: nat, createdAt: string): (r: Option<StickyNote>)
    ensures r.Some? <==> form.color < |Colors|
    ensures r.Some? ==> && r.value.id == NatToString(now)
                        && r.value.content == form.content && r.value.author == form.author
                        && r.value.color == Colors[form.color].name
                        && r.value.x == 0 && r.value.y == 0 && r.value.createdAt == createdAt
  {
    if form.color < |Colors| then
      Some(StickyNote(NatToString(now), form.content, form.author, Colors[form.color].name, 0, 0, createdAt))
    else None
  }

  /**
   * The note a submission appends: none unless both fields are filled in, the colour is one
   * of COLORS and the POST answered ok (`posted`).
   */
  function Added(form: NoteForm, now: nat, createdAt: string, posted: bool): (r: Option<StickyNote>)
    ensures r.Some? <==> Fillable(form) && form.color < |Colors| && posted
    ensures r.Some? ==> r == NewNote(form, now, createdAt)
  {
    if Fillable(form) && posted then NewNote(form, now, createdAt) else None
  }

  /** Content or an author made only of white space is never added. */
  lemma WhiteSpaceNotAdded(form: NoteForm, now: nat, createdAt: string, posted: bool)
    requires (forall i :: 0 <= i < |form.content| ==> IsSpace(form.content[i]))
          || (forall i :: 0 <= i < |form.author| ==> IsSpace(form.author[i]))
    ensures Added(form, now, createdAt, posted).None?
  {
    BlankIffAllSpace(form.content);
    BlankIffAllSpace(form.author);
  }

  /** Notes created at different milliseconds get different ids. */
  lemma NewNoteIdsDiffer(a: NoteForm, b: NoteForm, m: nat, n: nat, createdA: string, createdB: string)
    requires NewNote(a, m, createdA).Some? && NewNote(b, n, createdB).Some? && m != n
    ensures NewNote(a, m, createdA).value.id != NewNote(b, n, createdB).value.id
  {
    if NatToString(m) == NatToString(n) {
      NatToStringInjective(m, n);
    }
  }

  /** The test of handleDeleteNote's filter. */
  function Other(id: string): StickyNote -> bool {
    (n: StickyNote) => n.id != id
  }

  /** `notes.filter(note => note.id !== id)`. */
  function Without(notes: seq<StickyNote>, id: string): (r: seq<StickyNote>)
    ensures forall n :: n in r <==> n in notes && n.id != id
  {
    Filter(notes, Other(id))
  }

  /** Deleting keeps the remaining notes in their order. */
  lemma WithoutKeepsOrder(notes: seq<StickyNote>, id: string, i: nat, j: nat)
    requires i < j < |notes| && notes[i].id != id && notes[j].id != id
    ensures exists a, b :: 0 <= a < b < |Without(notes, id)|
              && Without(notes, id)[a] == notes[i] && Without(notes, id)[b] == notes[j]
  {
    assert Other(id)(notes[i]) && Other(id)(notes[j]);
    FilterKeepsOrder(notes, Other(id), i, j);
    var r := Filter(notes, Other(id));
    var a, b :| 0 <= a < b < |r| && r[a] == notes[i] && r[b] == notes[j];
    assert Without(notes, id) == r;
  }

  /** Deleting the same id twice is deleting it once. */
  lemma WithoutIdempotent(notes: seq<StickyNote>, id: string)
    ensures Without(Without(notes, id), id) == Without(notes, id)
  {
    FilterIdempotent(notes, Other(id));
  }

  /** Deleting a note just appended under a fresh id gives back the list before the add. */
  lemma DeleteUndoesAdd(notes: seq<StickyNote>, note: StickyNote)
    requires forall i :: 0 <= i < |notes| ==> notes[i].id != note.id
    ensures Without(notes + [note], note.id) == notes
  {
    FilterConcat(notes, [note], Other(note.id));
    FilterKeepsAll(notes, Other(note.id));
  }

  /** getColorClasses: the palette entry of that name, or Yellow. */
  function ColorFor(name: string): (r: ColorClasses)
    ensures r in Colors
    ensures (exists i :: 0 <= i < |Colors| && Colors[i].name == name) ==> r.name == name
    ensures (forall i :: 0 <= i < |Colors| ==> Colors[i].name != name) ==> r == Colors[0]
  {
    FindColor(name, 0)
  }

  /** `COLORS.find(c => c.name === name) || COLORS[0]` from position `from` on. */
  function FindColor(name: string, from: nat): (r: ColorClasses)
    requires from <= |Colors|
    ensures r in Colors
    ensures (exists i :: from <= i < |Colors| && Colors[i].name == name) ==> r.name == name
    ensures (forall i :: from <= i < |Colors| ==> Colors[i].name != name) ==> r == Colors[0]
    decreases |Colors| - from
  {
    if from == |Colors| then Colors[0]
    else if Colors[from].name == name then Colors[from]
    else FindColor(name, from + 1)
  }

  /** Every note the page creates is drawn in the colour it was given. */
  lemma CreatedNoteKeepsColor(form: NoteForm, now: nat, createdAt: string)
    requires NewNote(form, now, createdAt).Some?
    ensures ColorFor(NewNote(form, now, createdAt).value.color) == Colors[form.color]
  {
    var c := form.color;
    assert Colors[c].name == NewNote(form, now, createdAt).value.color;
    assert forall i, j :: 0 <= i < j < |Colors| ==> Colors[i].name != Colors[j].name;
  }

  class NotesBoard {
    var notes: seq<StickyNote>
    var form: NoteForm
    var isAddingNote: bool

    constructor ()
      ensures notes == [] && form == EmptyForm && !isAddingNote
    {
      notes := [];
      form := EmptyForm;
      isAddingNote := false;
    }

    /** fetchNotes: an ok answer replaces the list, anything else leaves it. */
    method Fetch(answer: Option<seq<StickyNote>>)
      modifies this`notes
      ensures notes == (if answer.Some? then answer.value else old(notes))
    {
      if answer.Some? {
        notes := answer.value;
      }
    }

    /**
     * handleAddNote. `posted` says whether the POST answered ok; a failed or unreachable
     * POST only raises an alert. On success the note is appended, the form cleared and closed.
     */
    method AddNote(now: nat, createdAt: string, posted: bool)
      modifies this`notes, this`form, this`isAddingNote
      ensures var added := Added(old(form), now, createdAt, posted);
        && notes == old(notes) + (if added.Some? then [added.value] else [])
        && (added.Some? ==> form == EmptyForm && !isAddingNote)
        && (added.None? ==> form == old(form) && isAddingNote == old(isAddingNote))
    {
      var added := Added(form, now, createdAt, posted);
      if added.Some? {
        notes := notes + [added.value];
        form := EmptyForm;
        isAddingNote := false;
      }
    }

    /** handleDeleteNote: removed at once; a failed DELETE is repaired by a later Fetch. */
    method DeleteNote(id: string)
      modifies this`notes
      ensures notes == Without(old(notes), id)
    {
      notes := Without(notes, id);
    }
  }
}
