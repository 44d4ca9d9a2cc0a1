/**
 * The private image listing (app/api/secret-images/route.ts): like the public listing, but
 * only for an authenticated session, over private/secret, with ids from 10000 and URLs that
 * lead to the file route. `encode` stands for encodeURIComponent.
 */
module SecretImages {
  import opened Wrappers
  import opened GameTypes
  import opened FileNames
  import opened Images

  datatype SecretReply =
    | Unauthorized                     // 401 { error: 'Unauthorized' }
    | Listed(images: seq<ImageEntry>)  // 200
    | ServerError                      // 500 { error: 'Internal server error' }

  const FirstSecretId := 10000
  const FileRoute := "/api/secret-images/file?filename="

  /** The entries for the kept files, in their order. */
  function Describe(kept: seq<string>, encode: string -> string): (r: seq<ImageEntry>)
    ensures |r| == |kept|
    ensures forall i :: 0 <= i < |r| ==>
              && r[i].id == FirstSecretId + i
              && r[i].src == FileRoute + encode(kept[i])
              && r[i].alt == kept[i]
              && r[i].caption == Caption(kept[i])
  {
    seq(|kept|, i requires 0 <= i < |kept| =>
      ImageEntry(FirstSecretId + i, FileRoute + encode(kept[i]), kept[i], Caption(kept[i])))
  }

  /**
   * GET. `authenticated` is the session's isAuthenticated flag. Unlike the public route a
   * failed read answers 500, while a missing directory still answers the empty list.
   */
  function List(authenticated: Option<bool>, listing: Listing, encode: string -> string): (r: SecretReply)
    ensures !OrFalse(authenticated) <==> r.Unauthorized?
    ensures r.ServerError? <==> OrFalse(authenticated) && listing.Unreadable?
    ensures OrFalse(authenticated) && listing.NoDirectory? ==> r == Listed([])
    ensures r.Listed? && listing.Files? ==> r.images == Describe(ImageFiles(listing.names), encode)
  {
    if !OrFalse(authenticated) then Unauthorized
    else
      match listing
      case NoDirectory => Listed([])
      case Unreadable => ServerError
      case Files(names) => Listed(Describe(ImageFiles(names), encode))
  }

  /** Without a session the answer does not depend on the directory: it is never read. */
  lemma UnauthenticatedReadsNothing(authenticated: Option<bool>, a: Listing, b: Listing, encode: string -> string)
    requires !OrFalse(authenticated)
    ensures List(authenticated, a, encode) == List(authenticated, b, encode) == Unauthorized
  {
  }

  /**
   * The secret ids never collide with the public ones of a directory of fewer than 10000
   * images, and within the list they are distinct.
   */
  lemma IdsApart(names: seq<string>, publicNames: seq<string>, encode: string -> string, i: nat, j: nat)
    requires |ImageFiles(publicNames)| < FirstSecretId
    requires List(Some(true), Files(names), encode).Listed?
    ensures var s := List(Some(true), Files(names), encode).images; var p := Images.List(Files(publicNames));
      (i < |s| && j < |p| ==> s[i].id != p[j].id)
      && (i < j < |s| ==> s[i].id != s[j].id)
  {
  }

  /** A listed alt is the file name itself, so it is an image file of the directory. */
  lemma AltIsListedFile(names: seq<string>, encode: string -> string, i: nat)
    requires List(Some(true), Files(names), encode).Listed?
    requires i < |List(Some(true), Files(names), encode).images|
    ensures var e := List(Some(true), Files(names), encode).images[i];
      e.alt in names && IsImageFile(e.alt)
  {
    var kept := ImageFiles(names);
    assert kept[i] in kept;
  }
}
