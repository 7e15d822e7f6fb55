/** The Foreground component: its state (`cards`, `search`, `user`, `loading`,
    `showAuthModal`), the handlers that update it, and what it renders from it.
    Every call to the HTTP client is replaced by its settled outcome, passed in
    as a `Reply`: `Resolved(value)` when the promise fulfils, `Rejected` when it
    throws. */
module ForegroundComponent {
  import opened CardList
  import Card

  datatype Option<T> = None | Some(value: T)

  /** The settled outcome of one awaited client call. */
  datatype Reply<T> = Resolved(value: T) | Rejected

  /** The signed-in user as returned by the client; only `name` is displayed. */
  datatype User = User(id: string, name: string, email: string)

  /** The `data` prop the component hands to each `Card`: the card's own fields,
      its description as `desc`, and both optional controls switched on. */
  function CardDataOf(item: FileCard): (d: Card.CardData)
    ensures d.close && d.tag.isopen
    ensures d.fileType == item.fileType && d.fileUrl == item.fileUrl && d.desc == item.description
    ensures d.tag.tagTitle == item.tagTitle && d.tag.tagColor == item.tagColor
  {
    Card.CardData(item.fileType, item.fileUrl, item.description, true,
                  Card.TagData(true, item.tagTitle, item.tagColor))
  }

  /** Every card the component renders shows its delete control and its tag band. */
  lemma RenderedCardShowsControls(item: FileCard)
    ensures Card.RenderCard(CardDataOf(item)).showDelete
    ensures Card.RenderCard(CardDataOf(item)).band == Card.Band(Card.BandFor(item.tagColor), item.tagTitle)
    ensures Card.RenderCard(CardDataOf(item)).caption == item.description
  {
  }

  /** After a download is recorded, the card of that file renders a blue "Downloaded" band. */
  lemma DownloadedCardShowsBlueBand(cards: seq<FileCard>, id: FileId, i: nat)
    requires i < |cards| && cards[i].id == id
    ensures Card.RenderCard(CardDataOf(MarkDownloaded(cards, id)[i])).band == Card.Band(Card.BlueBand, DownloadedTitle)
  {
  }

  /** The card area below the controls. */
  datatype Body = LoadingFiles | NoFilesFound | Grid(items: seq<Card.CardData>)

  /** What the component renders: the sign-in modal alone while nobody is signed
      in, otherwise the workspace with the modal (open or closed), the upload
      control (disabled and labelled "Uploading..." while `uploading`), the
      user's name and the card area. */
  datatype Screen =
    | SignInOnly(authModalOpen: bool)
    | Workspace(authModalOpen: bool, uploading: bool, userName: string, body: Body)

  /** The card area: a loading note while files load or upload and the list is
      empty, a "no files" note
      when the search leaves nothing, otherwise one card per matching file. */
  function BodyFor(loading: bool, cards: seq<FileCard>, search: string): (b: Body)
    ensures b.LoadingFiles? <==> loading && cards == []
    ensures b.NoFilesFound? <==> !(loading && cards == []) && Search(cards, search) == []
    ensures b.Grid? ==> |b.items| == |Search(cards, search)| > 0
    ensures b.Grid? ==> forall i :: 0 <= i < |b.items| ==> b.items[i] == CardDataOf(Search(cards, search)[i])
  {
    if loading && |cards| == 0 then LoadingFiles
    else
      var shown := Search(cards, search);
      if |shown| == 0 then NoFilesFound
      else Grid(seq(|shown|, i requires 0 <= i < |shown| => CardDataOf(shown[i])))
  }

  /** Every card in the grid shows its delete control and its tag band. */
  lemma GridShowsControls(loading: bool, cards: seq<FileCard>, search: string)
    ensures var b := BodyFor(loading, cards, search);
      b.Grid? ==> forall i :: 0 <= i < |b.items| ==>
        Card.RenderCard(b.items[i]).showDelete && Card.RenderCard(b.items[i]).band.Band?
  {
  }

  /** The whole screen for one state of the component. */
  function ScreenFor(user: Option<User>, showAuthModal: bool, loading: bool, cards: seq<FileCard>, search: string): (s: Screen)
    ensures s.SignInOnly? <==> user.None?
    ensures s.authModalOpen == showAuthModal
    ensures s.Workspace? ==> s.uploading == loading && s.userName == user.value.name
    ensures s.Workspace? ==> s.body == BodyFor(loading, cards, search)
  {
    match user
    case None => SignInOnly(showAuthModal)
    case Some(u) => Workspace(showAuthModal, loading, u.name, BodyFor(loading, cards, search))
  }

  class Foreground {
    var cards: seq<FileCard>
    var search: string
    var user: Option<User>
    var loading: bool
    var showAuthModal: bool

    /** The screen the current state renders. */
    function View(): (s: Screen)
      reads this
      ensures s.SignInOnly? <==> user.None?
      ensures s.authModalOpen == showAuthModal
      ensures s.Workspace? ==> s.uploading == loading && s.userName == user.value.name
      ensures s.Workspace? ==> s.body == BodyFor(loading, cards, search)
    {
      ScreenFor(user, showAuthModal, loading, cards, search)
    }

    /** The initial `useState` values. */
    constructor ()
      ensures cards == [] && search == "" && user == None && !loading && !showAuthModal
    {
      cards := [];
      search := "";
      user := None;
      loading := false;
      showAuthModal := false;
    }

    /** `checkAuth`: ask the client who is signed in; if nobody, open the sign-in modal. */
    method CheckAuth(me: Reply<User>)
      modifies this
      ensures me.Resolved? ==> user == Some(me.value) && showAuthModal == old(showAuthModal)
      ensures me.Rejected? ==> user == old(user) && showAuthModal
      ensures cards == old(cards) && search == old(search) && loading == old(loading)
    {
      match me
      case Resolved(u) =>
        user := Some(u);
      case Rejected =>
        showAuthModal := true;
    }

    /** `fetchFiles`, run whenever `user` changes: nothing without a user;
        otherwise `cards` becomes the returned list (the empty list when the
        client returns nothing), is kept when the call fails, and `loading` is
        false at the end either way. */
    method FetchFiles(files: Reply<Option<seq<FileCard>>>)
      modifies this
      ensures old(user).None? ==> cards == old(cards) && loading == old(loading)
      ensures old(user).Some? ==> !loading
      ensures old(user).Some? && files.Resolved? ==>
        cards == (match files.value case Some(list) => list case None => [])
      ensures old(user).Some? && files.Rejected? ==> cards == old(cards)
      ensures user == old(user) && search == old(search) && showAuthModal == old(showAuthModal)
    {
      if user.None? {
        return;
      }
      loading := true;
      match files {
        case Resolved(data) =>
          cards := match data case Some(list) => list case None => [];
        case Rejected =>
      }
      loading := false;
    }

    /** `handleAuthSuccess`: after the modal signs someone in, adopt that user and close the modal. */
    method HandleAuthSuccess(me: Reply<User>)
      modifies this
      ensures me.Resolved? ==> user == Some(me.value) && !showAuthModal
      ensures me.Rejected? ==> user == old(user) && showAuthModal == old(showAuthModal)
      ensures cards == old(cards) && search == old(search) && loading == old(loading)
    {
      match me
      case Resolved(u) =>
        user := Some(u);
        showAuthModal := false;
      case Rejected =>
    }

    /** `handleLogout`: forget the user and the cards and show the sign-in modal. */
    method HandleLogout()
      modifies this
      ensures user == None && cards == [] && showAuthModal
      ensures search == old(search) && loading == old(loading)
      ensures View() == SignInOnly(true)
    {
      user := None;
      cards := [];
      showAuthModal := true;
    }

    /** `handleFileUpload`: without a user, open the sign-in modal and stop; with
        no file chosen, stop; otherwise upload, put the new file first, and end
        with `loading` false whether or not the upload succeeded. */
    method HandleFileUpload(fileChosen: bool, upload: Reply<FileCard>)
      modifies this
      ensures old(user).None? ==> showAuthModal && cards == old(cards) && loading == old(loading)
      ensures old(user).Some? && !fileChosen ==>
        cards == old(cards) && loading == old(loading) && showAuthModal == old(showAuthModal)
      ensures old(user).Some? && fileChosen ==> !loading && showAuthModal == old(showAuthModal)
      ensures old(user).Some? && fileChosen && upload.Resolved? ==> cards == [upload.value] + old(cards)
      ensures old(user).Some? && fileChosen && upload.Rejected? ==> cards == old(cards)
      ensures user == old(user) && search == old(search)
    {
      if user.None? {
        showAuthModal := true;
        return;
      }
      if !fileChosen {
        return;
      }
      loading := true;
      match upload {
        case Resolved(newFile) =>
          cards := [newFile] + cards;
        case Rejected =>
      }
      loading := false;
    }

    /** `handleDownload`, after the browser has been sent to the file's URL:
        record the download in the tag of the card with that id. */
    method HandleDownload(id: FileId, tagUpdate: Reply<()>)
      modifies this
      ensures tagUpdate.Resolved? ==> cards == MarkDownloaded(old(cards), id)
      ensures tagUpdate.Rejected? ==> cards == old(cards)
      ensures user == old(user) && search == old(search)
      ensures loading == old(loading) && showAuthModal == old(showAuthModal)
    {
      if tagUpdate.Resolved? {
        cards := MarkDownloaded(cards, id);
      }
    }

    /** `handleRemove`: once the delete succeeds, drop every card with that id. */
    method HandleRemove(id: FileId, deletion: Reply<()>)
      modifies this
      ensures deletion.Resolved? ==> cards == RemoveById(old(cards), id)
      ensures deletion.Rejected? ==> cards == old(cards)
      ensures user == old(user) && search == old(search)
      ensures loading == old(loading) && showAuthModal == old(showAuthModal)
    {
      if deletion.Resolved? {
        cards := RemoveById(cards, id);
      }
    }

    /** The search box's `onChange`. */
    method SetSearch(text: string)
      modifies this
      ensures search == text
      ensures cards == old(cards) && user == old(user)
      ensures loading == old(loading) && showAuthModal == old(showAuthModal)
    {
      search := text;
    }

    /** The modal's `onClose`: it closes the modal while someone is signed in;
        without a user the modal is rendered with an `onClose` that does nothing. */
    method CloseAuthModal()
      modifies this
      ensures old(user).Some? ==> !showAuthModal
      ensures old(user).None? ==> showAuthModal == old(showAuthModal)
      ensures cards == old(cards) && user == old(user) && search == old(search) && loading == old(loading)
    {
      if user.Some? {
        showAuthModal := false;
      }
    }
  }
}
