/**
 * The public image listing (app/api/images/route.ts): the image files of public/images,
 * in directory order, each described by a numeric id, its URL, an alt text and a caption.
 * Reading the directory is a parameter: the listing it produced, or that it failed.
 */
module Images {
  import opened Strings
  import opened FileNames
  import opened Sequences

  /** What fs.existsSync / fs.readdirSync report for a directory. */
  datatype Listing = NoDirectory | Files(names: seq<string>) | Unreadable

  /** One element of the JSON array both listing routes answer with. */
  datatype ImageEntry = ImageEntry(id: nat, src: string, alt: string, caption: string)

  const ImagesPrefix := "/images/"
  const AltPrefix := "Photo "

  /** GET: a missing directory and a failed read both answer with the empty list. */
  function List(listing: Listing): (r: seq<ImageEntry>)
    ensures !listing.Files? ==> r == []
    ensures listing.Files? ==> |r| == |ImageFiles(listing.names)|
    ensures forall i :: 0 <= i < |r| ==> r[i].id == i + 1
    ensures forall i :: 0 <= i < |r| ==>
              var f := ImageFiles(listing.names)[i];
              r[i].src == ImagesPrefix + f && r[i].alt == AltPrefix + NatToString(r[i].id) && r[i].caption == Caption(f)
  {
    match listing
    case Files(names) =>
      var kept := ImageFiles(names);
      seq(|kept|, i requires 0 <= i < |kept| =>
        ImageEntry(i + 1, ImagesPrefix + kept[i], AltPrefix + NatToString(i + 1), Caption(kept[i])))
    case _ => []
  }

  /** Every image file of the directory is listed, and every listed URL names one. */
  lemma ListsExactlyTheImages(names: seq<string>, f: string)
    ensures (exists i :: 0 <= i < |List(Files(names))| && List(Files(names))[i].src == ImagesPrefix + f)
        <==> f in names && IsImageFile(f)
  {
    var r := List(Files(names));
    var kept := ImageFiles(names);
    if f in names && IsImageFile(f) {
      var i :| 0 <= i < |kept| && kept[i] == f;
      assert r[i].src == ImagesPrefix + f;
    }
    if exists i :: 0 <= i < |r| && r[i].src == ImagesPrefix + f {
      var i :| 0 <= i < |r| && r[i].src == ImagesPrefix + f;
      assert (ImagesPrefix + f)[|ImagesPrefix|..] == f;
      assert (ImagesPrefix + kept[i])[|ImagesPrefix|..] == kept[i];
      assert kept[i] in kept;
    }
  }

  /** Two image files keep their directory order in the list. */
  lemma ListKeepsOrder(names: seq<string>, i: nat, j: nat)
    requires i < j < |names| && IsImageFile(names[i]) && IsImageFile(names[j])
    ensures exists a, b :: 0 <= a < b < |List(Files(names))|
              && List(Files(names))[a].src == ImagesPrefix + names[i]
              && List(Files(names))[b].src == ImagesPrefix + names[j]
  {
    FilterKeepsOrder(names, IsImageFile, i, j);
    var kept := ImageFiles(names);
    var a, b :| 0 <= a < b < |kept| && kept[a] == names[i] && kept[b] == names[j];
    assert List(Files(names))[a].src == ImagesPrefix + names[i];
    assert List(Files(names))[b].src == ImagesPrefix + names[j];
  }

  /** The number in an alt text reads back as the entry's id, so distinct entries have distinct alts. */
  lemma AltNamesId(listing: Listing, i: nat)
    requires i < |List(listing)|
    ensures var e := List(listing)[i];
      |e.alt| > |AltPrefix| && e.alt[..|AltPrefix|] == AltPrefix
      && (forall k :: |AltPrefix| <= k < |e.alt| ==> IsDigit(e.alt[k]))
      && ParseDigits(e.alt[|AltPrefix|..]) == e.id
  {
    var e := List(listing)[i];
    assert e.alt[|AltPrefix|..] == NatToString(e.id);
    ParseNatToString(e.id);
  }
}
