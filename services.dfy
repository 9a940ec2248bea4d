/** Small services of the application layer: the text a transfer status is
    shown as (src/app/services/transfer_service.rs) and the duplicate check
    for bookmarks (src/app/services/explorer_service.rs), with the caller that
    adds a bookmark only when it is new. */
module Services {
  import opened Config
  import DomainTransfer

  // ---------------------------------------------------------------------------
  // Status text

  /** `status_to_text`: a label for the status kind and the error message,
      empty unless the transfer failed. */
  function StatusToText(status: DomainTransfer.TransferStatus): (r: (string, string))
    ensures r.1 != "" ==> status.Failed?
    ensures status.Failed? ==> r == ("failed", status.error)
  {
    match status
    case Pending => ("pending", "")
    case InProgress => ("progress", "")
    case Completed => ("done", "")
    case Failed(e) => ("failed", e)
  }

  /** The text determines the status: with the label telling the kind and the
      message carrying a failure's error, no two statuses are shown alike. */
  lemma StatusTextInjective(a: DomainTransfer.TransferStatus, b: DomainTransfer.TransferStatus)
    ensures StatusToText(a) == StatusToText(b) <==> a == b
  {
  }

  /** The label alone determines the kind of status. */
  lemma LabelDeterminesKind(a: DomainTransfer.TransferStatus, b: DomainTransfer.TransferStatus)
    requires StatusToText(a).0 == StatusToText(b).0
    ensures a.Pending? == b.Pending? && a.InProgress? == b.InProgress?
    ensures a.Completed? == b.Completed? && a.Failed? == b.Failed?
  {
  }

  // ---------------------------------------------------------------------------
  // Bookmarks

  /** `dedup_bookmark`: some bookmark already has this path on this side. */
  function DedupBookmark(bookmarks: seq<Bookmark>, path: string, side: string): (r: bool)
    ensures r <==> exists i :: 0 <= i < |bookmarks| && bookmarks[i].path == path && bookmarks[i].side == side
  {
    if bookmarks == [] then false
    else if bookmarks[0].path == path && bookmarks[0].side == side then true
    else
      var r := DedupBookmark(bookmarks[1..], path, side);
      assert forall i :: 1 <= i < |bookmarks| ==> bookmarks[i] == bookmarks[1..][i - 1];
      r
  }

  /** Names play no part: renaming every bookmark keeps the answer. */
  lemma {:induction false} DedupIgnoresNames(bookmarks: seq<Bookmark>, names: seq<string>, path: string, side: string)
    requires |names| == |bookmarks|
    ensures DedupBookmark(Renamed(bookmarks, names), path, side) == DedupBookmark(bookmarks, path, side)
  {
    var r := Renamed(bookmarks, names);
    forall i | 0 <= i < |r|
      ensures (r[i].path == path && r[i].side == side) == (bookmarks[i].path == path && bookmarks[i].side == side)
    {
    }
  }

  function Renamed(bookmarks: seq<Bookmark>, names: seq<string>): (r: seq<Bookmark>)
    requires |names| == |bookmarks|
    ensures |r| == |bookmarks|
    ensures forall i :: 0 <= i < |r| ==> r[i] == bookmarks[i].(name := names[i])
  {
    seq(|bookmarks|, i requires 0 <= i < |bookmarks| => bookmarks[i].(name := names[i]))
  }

  /** After a bookmark with this path and side is appended, it is a duplicate. */
  lemma AppendedIsDuplicate(bookmarks: seq<Bookmark>, name: string, path: string, side: string)
    ensures DedupBookmark(bookmarks + [Bookmark(name, path, side)], path, side)
    ensures !DedupBookmark([], path, side)
  {
    var bs := bookmarks + [Bookmark(name, path, side)];
    assert bs[|bookmarks|].path == path && bs[|bookmarks|].side == side;
  }

  /** No two bookmarks share both path and side. */
  predicate DistinctPlaces(bookmarks: seq<Bookmark>) {
    forall i, j :: 0 <= i < j < |bookmarks| ==>
      !(bookmarks[i].path == bookmarks[j].path && bookmarks[i].side == bookmarks[j].side)
  }

  /** The add-bookmark handler: append only when no bookmark has the place. */
  function AddBookmark(bookmarks: seq<Bookmark>, name: string, path: string, side: string): (r: seq<Bookmark>)
    ensures DistinctPlaces(bookmarks) ==> DistinctPlaces(r)
    ensures DedupBookmark(r, path, side)
    ensures r == bookmarks <==> DedupBookmark(bookmarks, path, side)
    ensures !DedupBookmark(bookmarks, path, side) ==> r == bookmarks + [Bookmark(name, path, side)]
  {
    AppendedIsDuplicate(bookmarks, name, path, side);
    if DedupBookmark(bookmarks, path, side) then bookmarks
    else bookmarks + [Bookmark(name, path, side)]
  }
}
