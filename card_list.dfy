/** The list computations of the Foreground component: the new `cards` array its
    handlers build after a download or a delete, and the search filter that
    decides which cards are displayed. Each is a pure function of the old list. */
module CardList {
  import opened Text
  import opened Sequences

  type FileId = string

  /** One file record as the component holds it in `cards`. */
  datatype FileCard = FileCard(
    id: FileId,
    fileName: string,
    fileSize: nat,
    fileType: string,
    description: string,
    fileUrl: string,
    tagTitle: string,
    tagColor: string)

  const DownloadedTitle: string := "Downloaded"
  const DownloadedColor: string := "blue"

  /** `b` agrees with `a` on every field except possibly the two tag fields. */
  predicate SameExceptTag(a: FileCard, b: FileCard) {
    a.(tagTitle := b.tagTitle, tagColor := b.tagColor) == b
  }

  /** `cards.map(c => c.id === id ? { ...c, tagTitle: "Downloaded", tagColor: "blue" } : c)` */
  function MarkDownloaded(cards: seq<FileCard>, id: FileId): (r: seq<FileCard>)
    ensures |r| == |cards|
    ensures forall i :: 0 <= i < |cards| ==> SameExceptTag(cards[i], r[i])
    ensures forall i :: 0 <= i < |cards| && cards[i].id == id ==>
      r[i].tagTitle == DownloadedTitle && r[i].tagColor == DownloadedColor
    ensures forall i :: 0 <= i < |cards| && cards[i].id != id ==> r[i] == cards[i]
  {
    if cards == [] then []
    else
      var c := cards[0];
      var head := if c.id == id then c.(tagTitle := DownloadedTitle, tagColor := DownloadedColor) else c;
      [head] + MarkDownloaded(cards[1..], id)
  }

  /** Marking a second time changes nothing. */
  lemma MarkDownloadedIdempotent(cards: seq<FileCard>, id: FileId)
    ensures MarkDownloaded(MarkDownloaded(cards, id), id) == MarkDownloaded(cards, id)
  {
  }

  /** Marking an id that no card carries leaves the list as it was. */
  lemma MarkAbsentIdUnchanged(cards: seq<FileCard>, id: FileId)
    requires forall i :: 0 <= i < |cards| ==> cards[i].id != id
    ensures MarkDownloaded(cards, id) == cards
  {
  }

  /** `cards.filter(c => c.id !== id)` */
  function RemoveById(cards: seq<FileCard>, id: FileId): (r: seq<FileCard>)
    ensures forall i :: 0 <= i < |r| ==> r[i].id != id
    ensures IsSubsequence(r, cards)
    ensures forall c: FileCard :: c.id != id ==> multiset(r)[c] == multiset(cards)[c]
    ensures (forall i :: 0 <= i < |cards| ==> cards[i].id != id) ==> r == cards
  {
    Filter(cards, (c: FileCard) => c.id != id)
  }

  /** Removing twice is removing once. */
  lemma RemoveTwice(cards: seq<FileCard>, id: FileId)
    ensures RemoveById(RemoveById(cards, id), id) == RemoveById(cards, id)
  {
  }

  /** Deleting a freshly uploaded file whose id is new restores the list before the upload. */
  lemma UploadThenRemove(cards: seq<FileCard>, newFile: FileCard)
    requires forall i :: 0 <= i < |cards| ==> cards[i].id != newFile.id
    ensures RemoveById([newFile] + cards, newFile.id) == cards
  {
  }

  /** Deleting after a download gives the same list as deleting straight away:
      the tag update only touches cards that the delete then drops. */
  lemma {:induction false} RemoveAfterDownload(cards: seq<FileCard>, id: FileId)
    ensures RemoveById(MarkDownloaded(cards, id), id) == RemoveById(cards, id)
    decreases |cards|
  {
    if cards != [] {
      var marked := MarkDownloaded(cards, id);
      var keep := (c: FileCard) => c.id != id;
      assert marked == [marked[0]] + marked[1..] && cards == [cards[0]] + cards[1..];
      assert marked[1..] == MarkDownloaded(cards[1..], id);
      FilterAppend([marked[0]], marked[1..], keep);
      FilterAppend([cards[0]], cards[1..], keep);
      RemoveAfterDownload(cards[1..], id);
      assert marked[0].id == cards[0].id;
      assert Filter([marked[0]], keep) == Filter([cards[0]], keep);
    }
  }

  /** The search test for one card: its lower-cased description includes the
      lower-cased search text. */
  predicate Matches(c: FileCard, query: string)
    ensures query == "" ==> Matches(c, query)
    ensures Matches(c, query) ==> |query| <= |c.description|
  {
    IncludesEmpty(Lower(c.description));
    Includes(Lower(c.description), Lower(query))
  }

  /** Every card matches the empty search text. */
  lemma EmptyQueryMatchesAll(cards: seq<FileCard>)
    ensures forall i :: 0 <= i < |cards| ==> Matches(cards[i], "")
  {
    forall i | 0 <= i < |cards|
      ensures Matches(cards[i], "")
    {
      IncludesEmpty(Lower(cards[i].description));
    }
  }

  /** `filteredCards`: the cards that match the search text, in list order. */
  function Search(cards: seq<FileCard>, query: string): (r: seq<FileCard>)
    ensures forall i :: 0 <= i < |r| ==> Matches(r[i], query)
    ensures IsSubsequence(r, cards)
    ensures forall c: FileCard :: Matches(c, query) ==> multiset(r)[c] == multiset(cards)[c]
    ensures query == "" ==> r == cards
  {
    if query == "" then
      EmptyQueryMatchesAll(cards);
      Filter(cards, (c: FileCard) => Matches(c, query))
    else
      Filter(cards, (c: FileCard) => Matches(c, query))
  }

  /** The search ignores the case of ASCII letters in the search text. */
  lemma SearchCaseInsensitive(cards: seq<FileCard>, q1: string, q2: string)
    requires Lower(q1) == Lower(q2)
    ensures Search(cards, q1) == Search(cards, q2)
  {
    FilterAgreeing(cards, (c: FileCard) => Matches(c, q1), (c: FileCard) => Matches(c, q2));
  }

  /** A card is listed by the search exactly when it is in the list and matches. */
  lemma SearchMembership(cards: seq<FileCard>, query: string, c: FileCard)
    ensures c in Search(cards, query) <==> c in cards && Matches(c, query)
  {
  }
}
