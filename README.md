# docsApp file catalogue: Foreground and Card components

The docsApp front end shows the signed-in user's files as draggable cards. The
`Foreground` component keeps the state: the card list `cards`, the search text,
the signed-in `user`, `loading`, and `showAuthModal`. Its handlers change that
state after calls to the HTTP client succeed or fail: upload, download, delete,
logout, the file load, and the two sign-in checks. It also decides what to show:
the sign-in modal alone, a loading note, a "no files" note, or one `Card` per
file that matches the search. `Card` decides how one file looks: which preview
or icon its MIME type gets, whether the delete control and the tag band appear,
and the band's colour.

This project models both components in Dafny.

- `text.dfy` (module `Text`): ASCII lower-casing, `startsWith` and `includes`.
- `sequences.dfy` (module `Sequences`): `filter`, with the property that its
  result is a subsequence of the input holding exactly the accepted elements,
  each as often as in the input.
- `card.dfy` (module `Card`): the `Card` component. The rendered card is a
  `CardView` value recording the preview, the caption, the delete flag and the
  band.
- `card_list.dfy` (module `CardList`): the file record and the pure list
  computations of `Foreground`: the tag update after a download, removal by
  id, and the search.
- `foreground.dfy` (module `ForegroundComponent`): the `Foreground` class,
  whose fields are the component's state variables and whose methods are its
  handlers. It also holds the `data` prop given to each card and the screen
  that a state renders.

Each call to the HTTP client becomes a `Reply<T>` parameter holding the call's
settled outcome: `Resolved(value)` or `Rejected`. Each handler runs from start
to finish in one method call.

## Model

| member | source | states |
|---|---|---|
| `Text.LowerChar` | src/components/Forground.jsx:115 | upper-case ASCII letters move to their lower-case partners; every other character is kept; no result is upper-case |
| `Text.Lower` | src/components/Forground.jsx:115 | `toLowerCase` keeps the length and lower-cases each character where it stands |
| `Text.LowerIdempotent` | src/components/Forground.jsx:115 | lower-casing twice gives the same text as lower-casing once |
| `Text.StartsWith` | src/components/Card.jsx:10 | `startsWith` holds exactly when the prefix is no longer than the text and agrees with it character by character |
| `Text.Includes` | src/components/Card.jsx:14 | `includes` never holds for a part longer than the text, and holds whenever the text starts with the part |
| `Text.IncludesEmpty` | src/components/Forground.jsx:115 | every description includes the empty search text |
| `Sequences.Filter` | src/components/Forground.jsx:114-116 | `filter` keeps only accepted elements; the result is a subsequence of the input; it holds each accepted value as often as the input does; when every element is accepted the result is the input |
| `Sequences.FilterAgreeing` | src/components/Forground.jsx:114-116 | two filter tests that give the same answer on every card give the same list |
| `Sequences.FilterAppend` | src/components/Forground.jsx:107 | filtering a concatenation filters each part and joins the results |
| `CardList.MarkDownloaded` | src/components/Forground.jsx:96-98 | the tag update keeps the length; each card with the target id gets tagTitle "Downloaded" and tagColor "blue" and keeps every other field; every other card is unchanged |
| `CardList.MarkDownloadedIdempotent` | src/components/Forground.jsx:96-98 | applying the tag update twice gives the same list as applying it once |
| `CardList.MarkAbsentIdUnchanged` | src/components/Forground.jsx:96-98 | a tag update for an id no card has leaves the list as it was |
| `CardList.RemoveById` | src/components/Forground.jsx:107 | after removal no card has the id; the rest keep their order and multiplicity; removing an absent id returns the list unchanged |
| `CardList.RemoveTwice` | src/components/Forground.jsx:107 | removing an id twice gives the same list as removing it once |
| `CardList.UploadThenRemove` | src/components/Forground.jsx:77-107 | putting a file with a new id first and then deleting that id gives back the list from before the upload |
| `CardList.RemoveAfterDownload` | src/components/Forground.jsx:95-107 | deleting a file after its tag update gives the same list as deleting it straight away |
| `CardList.Matches` | src/components/Forground.jsx:115 | the search test for one card; the empty search text matches every card, and a matching search text is no longer than the description |
| `CardList.EmptyQueryMatchesAll` | src/components/Forground.jsx:114-116 | every card passes the search test for the empty text |
| `CardList.Search` | src/components/Forground.jsx:114-116 | the search result is a subsequence of `cards`; it holds only cards whose lower-cased description includes the lower-cased search text; it holds every such card as often as `cards` does; the empty search returns all cards |
| `CardList.SearchCaseInsensitive` | src/components/Forground.jsx:115 | two search texts that agree after lower-casing give the same result |
| `CardList.SearchMembership` | src/components/Forground.jsx:114-116 | a card is in the search result exactly when it is in `cards` and passes the test |
| `Card.FileIconFor` | src/components/Card.jsx:9-16 | an image preview exactly when the type begins with "image/", showing the file's URL with its description as alt text; the PDF icon exactly when the type is "application/pdf"; the Word icon exactly when the type is neither of those and includes "word"; otherwise the generic icon |
| `Card.PdfIsNotImage` | src/components/Card.jsx:10-13 | "application/pdf" does not begin with "image/", so the PDF rule can be reached |
| `Card.ImageBeatsWord` | src/components/Card.jsx:10-14 | every type beginning with "image/" gets the image preview, whatever later rule it would also meet (such as including "word"), since the image rule is tried first |
| `Card.ApplicationWordGetsWordIcon` | src/components/Card.jsx:13-14 | every "application/..." type that includes "word" gets the Word icon |
| `Card.MsWordGetsWordIcon` | src/components/Card.jsx:14 | "application/msword" gets the Word icon |
| `Card.PdfWithParametersIsGeneric` | src/components/Card.jsx:13-15 | every type beginning with "application/pdf;" fails the exact PDF test; when it does not include "word" it gets the generic icon |
| `Card.PdfParameterWithWordGetsWordIcon` | src/components/Card.jsx:13-14 | "application/pdf; name=wordlist" fails the exact PDF test and gets the Word icon |
| `Card.UnknownTypesGetGenericIcon` | src/components/Card.jsx:14-15 | "text/plain" and the empty type get the generic icon |
| `Card.BandFor` | src/components/Card.jsx:62 | the band is blue exactly when tagColor is "blue"; any other value, "gray" and "red" included, gives green |
| `Card.RenderCard` | src/components/Card.jsx:27-65 | the preview is `getFileIcon`'s choice and the caption is the description; the delete control is shown exactly when `close` is true; the band is shown exactly when `tag.isopen` is true, with the tag title and the band colour for tagColor |
| `ForegroundComponent.CardDataOf` | src/components/Forground.jsx:193-201 | each card receives its type, URL and description, its tag title and colour, and `close` and `tag.isopen` both true |
| `ForegroundComponent.RenderedCardShowsControls` | src/components/Forground.jsx:190-206 | every card the component renders shows its delete control and a band with its own tag title and colour |
| `ForegroundComponent.DownloadedCardShowsBlueBand` | src/components/Forground.jsx:95-98 | after the tag update, the downloaded file's card renders a blue band titled "Downloaded" |
| `ForegroundComponent.BodyFor` | src/components/Forground.jsx:181-208 | the loading note is shown exactly while loading with no cards; the "no files" note exactly when not in that case and the search leaves nothing; otherwise one card per search result, in order |
| `ForegroundComponent.GridShowsControls` | src/components/Forground.jsx:190-202 | every card in the grid has its delete control and its tag band shown |
| `ForegroundComponent.ScreenFor` | src/components/Forground.jsx:118-152 | without a user only the sign-in modal is rendered; with a user the modal flag, the upload state, the user's name and the card area are shown |
| `ForegroundComponent.Foreground.View` | src/components/Forground.jsx:118-211 | the current state renders the sign-in modal alone exactly when there is no user; otherwise the workspace shows the modal flag, the upload state, the user's name and the card area for `loading`, `cards` and `search` |
| `ForegroundComponent.Foreground.constructor` | src/components/Forground.jsx:8-12 | the state starts with no cards, an empty search, no user, not loading, and the modal closed |
| `ForegroundComponent.Foreground.CheckAuth` | src/components/Forground.jsx:15-27 | a resolved `getMe` sets the user; a rejected one opens the sign-in modal; nothing else changes |
| `ForegroundComponent.Foreground.FetchFiles` | src/components/Forground.jsx:30-46 | without a user nothing changes; otherwise `cards` becomes the returned list (empty when the client returns nothing), stays as it was when the call fails, and `loading` ends false |
| `ForegroundComponent.Foreground.HandleAuthSuccess` | src/components/Forground.jsx:48-56 | a resolved `getMe` sets the user and closes the modal; a rejected one changes nothing |
| `ForegroundComponent.Foreground.HandleLogout` | src/components/Forground.jsx:58-63 | the user is cleared, `cards` is emptied and the modal opens, so only the open sign-in modal is rendered |
| `ForegroundComponent.Foreground.HandleFileUpload` | src/components/Forground.jsx:65-86 | without a user the modal opens and `cards` and `loading` are unchanged; with no file chosen nothing changes; otherwise `loading` ends false, a success puts the new file first in front of the old list, and a failure leaves `cards` as it was |
| `ForegroundComponent.Foreground.HandleDownload` | src/components/Forground.jsx:88-102 | a successful tag update applies `MarkDownloaded` to `cards`; a failed one leaves `cards` unchanged; no other field changes |
| `ForegroundComponent.Foreground.HandleRemove` | src/components/Forground.jsx:104-112 | a successful delete applies `RemoveById` to `cards`; a failed one leaves `cards` unchanged; no other field changes |
| `ForegroundComponent.Foreground.SetSearch` | src/components/Forground.jsx:141-147 | the search box sets the search text and nothing else |
| `ForegroundComponent.Foreground.CloseAuthModal` | src/components/Forground.jsx:119-124 | with a user, closing the modal clears `showAuthModal`; without one the modal's `onClose` does nothing and `showAuthModal` is kept; no other field changes |

## Left out

- The HTTP client (src/apiClient.jsx) uses `fetch` and stores its token in `localStorage`. Neither is modelled. Each call becomes a `Reply` parameter, and `Foreground.HandleLogout` does not model the token removal at line 59.
- src/components/AuthModal.jsx is a form with its own state. It renders nothing while `isOpen` is false (line 12). Its login branch calls `checkUserExists` (line 24), which the client does not define. Login therefore always throws into the catch at lines 41-42 and ends with an error message. Only sign-up, with a non-empty name (line 31) and a successful `register`, reaches `onSuccess` (line 39). The model starts at that callback: `Foreground.HandleAuthSuccess` takes the outcome of the `getMe` call it makes (src/components/Forground.jsx:50).
- src/components/Background.jsx and src/App.jsx are static markup.
- `Foreground.HandleDownload` leaves out the temporary link the browser clicks to start the download (lines 89-92). That touches the page, not the state.
- `alert` and `console` messages are left out, and so are the error messages carried by rejected calls. Neither affects the state.
- Drag and animation props, styling classes, the download button, and the size label `data.filesize` (src/components/Card.jsx:40) are not modelled. They make no decision.
- Text.Lower: lower-cases ASCII letters only, but JavaScript's `toLowerCase` also maps other Unicode letters. Its length fact, its per-position fact and the length bound in `CardList.Matches` hold for this ASCII model only: in JavaScript "İ" lower-cases to two code units, and "Σ" lower-cases by its context.
- A card's `description` and `fileType` are always strings in the model. In the source, a card without a description would throw at src/components/Forground.jsx:115, and one without a type would throw at the `startsWith` call of src/components/Card.jsx:10.
- The handlers run one at a time, each from start to finish. React schedules them around `await`, and their closures read the `cards` captured at render time. The model therefore does not cover two handlers overlapping. One example: a file load finishing in the middle of an upload.
- `loading` is never true between handler calls. `Foreground.FetchFiles` and `Foreground.HandleFileUpload` set it to true and back to false within one call, following the order of the source's `setLoading` calls and `finally` blocks. The "Loading files..." note and the "Uploading..." label are therefore covered only through `BodyFor` and `ScreenFor`, which are stated for either value of `loading`.
- React re-runs `fetchFiles` by itself whenever `user` changes (line 46). In the model, `Foreground.FetchFiles` is called explicitly. Called with no user, it changes nothing, as line 31 does.
- `user` is an `Option`. JavaScript's truthiness test on `user` becomes `None` against `Some`. `data || []` at line 37 becomes `None` (null or undefined) against `Some(list)`.
- The embedded-database store, its schema upgrade, coalesced initialisation, session storage and the name/MIME tag classifier are not part of this model. None of them is in the component source. That source talks to a REST client, and the model follows it.
