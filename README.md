# Book-rental front end: the rental reconciliation layer

The repository is a React front end for a book-rental ledger contract. Most of it is
rendering and network I/O. Four components hold client-side logic that decides what the
user sees and what value is sent to the ledger, and this project models that logic:

- **Catalogue** (`Explore.jsx`): enumerate ids `1 .. nextBookId-1`, read each record by
  field name, merge it with its metadata document ("Untitled"/"Unknown", the gateway
  image or `/default-image.jpg`), fetch the rental status only for books the viewer
  rents (addresses compared ignoring case), and rent a book for a number of days.
- **Single-book view** (`BookDetails.jsx`): read one record by position, merge it, fetch
  the status for its renter, choose between the rent button (disabled for the owner),
  the return button (for the renter) and "Currently rented out", and rent.
- **My books** (`MyBooks.jsx`): normalise the ids the ledger reports for the account into
  decimal strings, then read and merge each one, with the page's own defaults
  ("Unknown Title"/"Unknown Author") and `name ?? position` fallbacks.
- **Wallet button** (`Web3ConnectButton.jsx`): which account becomes active after each
  wallet answer, and the `0x1234...5678` abbreviation.

The deposit sent with `rentBook` is `days * dailyRentWei + MAX_PENALTY_DAYS *
PENALTY_PER_DAY_WEI` with `MAX_PENALTY_DAYS = 5` and `PENALTY_PER_DAY_WEI = 1e14`. It is
computed in exact bigint arithmetic, here `int`. It is reached only when the day count
passes `!days || days < 1` and `BigInt(days)` does not throw.

Every chain read and metadata fetch is an input. `Chain.Network` holds one total function
per read, and `None` means the call rejected or the fetch failed. `Promise.all` is
`Chain.ReadAll`: all reads succeed and keep their order, or the whole batch rejects.
JavaScript values are written out in `JsValues`: truthiness, `??`, `String(...)`,
`toLowerCase()` throwing on a non-string, and `/^\d+$/`. Each page's state is a class
whose methods update exactly the fields the component updates.

A catalogue record that fails to load is not skipped: any rejected read aborts the whole
pass and the previous list stays (`Explore.OneFailedReadAbortsLoad`,
`Explore.FailedStatusAbortsLoad`).

Two facts about the contract ABI (`src/constants.js`) are stated as lemmas, and the
model does not fix them. `getBookDetails` has no `owner` output, so the catalogue's
`b.owner` is undefined (`Explore.OwnerMissingFromAbi`). The single-book view's positional
decode does not follow the ABI's output order (see Findings). The page classes model the
code as written. The ABI-order decode is modelled beside it, as `BookDetails.DecodeAbi`
used through `BookDetails.LoadWith`.

## Model

| member | source | states |
|---|---|---|
| `JsValues.Truthy` | src/pages/Explore/Explore.jsx:54-56 | a value is falsy exactly when it is undefined, null, false, 0n or "" |
| `JsValues.Coalesce` | src/pages/Explore/Explore.jsx:77-78 | `??` yields the fallback exactly for a null or undefined value, and, unlike a logical or, keeps false, 0n and "" as well as every truthy value |
| `JsValues.Lower` | src/pages/Explore/Explore.jsx:57 | lower-casing keeps the length, maps each capital `A`-`Z` to its own lower-case letter (code + 32) and keeps every other character |
| `JsValues.LowerIdempotent` | src/pages/Explore/Explore.jsx:57 | lower-casing twice is lower-casing once |
| `JsValues.SameAddressIsEquivalence` | src/pages/Explore/Explore.jsx:57 | case-insensitive address comparison is reflexive, symmetric and transitive |
| `JsValues.SameAddressCharwise` | src/pages/Explore/Explore.jsx:57 | two addresses match exactly when they have the same length and agree position by position up to letter case |
| `JsValues.MixedCaseAddressesMatch` | src/components/BookCard/BookDetails.jsx:84 | a mixed-case address and its lower-case spelling match; addresses differing in a digit do not |
| `JsValues.LowerCaseOf` | src/components/BookCard/BookDetails.jsx:84 | `toLowerCase()` succeeds exactly on strings and yields the lower-cased text |
| `JsValues.NatToDecimal` | src/pages/MyBooks/MyBooks.jsx:28-32 | a bigint's `toString()` is all digits, with a leading zero only for 0 |
| `JsValues.DecimalRoundTrip` | src/pages/MyBooks/MyBooks.jsx:28-32 | reading back a printed id gives the id |
| `JsValues.DecimalInjective` | src/pages/MyBooks/MyBooks.jsx:28-32 | distinct ids print as distinct strings |
| `JsValues.IntToDecimal` | src/pages/MyBooks/MyBooks.jsx:28-32 | a non-negative bigint prints as digits denoting it, with a leading zero only for 0; a negative one as '-' and the digits of its magnitude, with no leading zero |
| `JsValues.ToText` | src/pages/Explore/Explore.jsx:46 | `String(v)` in the metadata URL: a string is itself, a non-negative bigint its canonical decimal, a negative one starts with '-', undefined and null their names |
| `Chain.AbiBookDetails` | src/constants.js:208-234 | the ABI's `getBookDetails` tuple: positions 0-4 and names agree, and there is no `owner` |
| `Chain.MetadataFor` | src/pages/Explore/Explore.jsx:44-50 | a fetched document is returned as fetched; a failed metadata fetch or parse yields `{}` |
| `Chain.ImageUri` | src/pages/Explore/Explore.jsx:81-83 | the image is gateway + `imageCid` when that is a non-empty string, else `/default-image.jpg` |
| `Chain.ReadAll` | src/pages/Explore/Explore.jsx:39-41 | a batch succeeds exactly when every read does; its answers keep the input order, one per input |
| `Economics.Deposit` | src/pages/Explore/Explore.jsx:123-126 | for non-negative days and rent the deposit always holds the 5e14 wei penalty reserve, covers a day's rent on top for one day or more, and is just the reserve for a free book |
| `Economics.DepositExact` | src/pages/Explore/Explore.jsx:20-21 | for rent ≥ 0 and days ≥ 1 the deposit is exactly `days*rent + 500000000000000` and covers one day's rent plus the reserve |
| `Economics.DepositStep` | src/pages/Explore/Explore.jsx:123-126 | one more day adds exactly one day's rent |
| `Economics.DepositMonotone` | src/pages/Explore/Explore.jsx:123-126 | a longer rental never needs a smaller deposit |
| `Economics.DepositScenario` | src/components/BookCard/BookDetails.jsx:119-121 | 3 days at 1e15 wei cost 3.5e15 wei |
| `Economics.RejectsDays` | src/pages/Explore/Explore.jsx:117 | the guard on the prompted days lets a count through exactly when it is +Infinity or a finite number of at least 1 |
| `Economics.BigIntOfNumber` | src/pages/Explore/Explore.jsx:125 | `BigInt(days)` succeeds exactly on finite integers and keeps the value |
| `Economics.BigIntOfValue` | src/components/BookCard/BookDetails.jsx:120 | `BigInt` keeps a bigint rent and throws on null/undefined |
| `Economics.PlanRent` | src/pages/Explore/Explore.jsx:116-126 | the rent is abandoned exactly when the guard rejects the days; it is sent exactly when both conversions succeed, then for at least one whole day and with the exact deposit |
| `Economics.WholeDaysAreSent` | src/pages/Explore/Explore.jsx:116-130 | a whole day count ≥ 1 on a bigint rent sends `days*rent + 500000000000000` |
| `Economics.NonIntegralDaysFail` | src/pages/Explore/Explore.jsx:117-125 | a fractional or infinite count passes the guard, but conversion throws and nothing is sent |
| `Economics.BelowOneDayIsAbandoned` | src/pages/Explore/Explore.jsx:117 | a count below 1, NaN or -Infinity returns before any call |
| `Economics.Submit` | src/pages/Explore/Explore.jsx:119-136 | rented exactly when a transaction was planned and accepted, with its days and value; a failure says whether the send call was reached |
| `Explore.BookIds` | src/pages/Explore/Explore.jsx:35-36 | `nextBookId - 1` ids when that is positive, none otherwise; entry i is i + 1, below `nextBookId` |
| `Explore.BookIdsExactRange` | src/pages/Explore/Explore.jsx:34-36 | the ids are exactly `1..nextBookId-1`, strictly ascending, and empty exactly when `nextBookId ≤ 1` |
| `Explore.StatusWanted` | src/pages/Explore/Explore.jsx:53-63 | a status is requested exactly when a user address is present and the renter string equals it ignoring case; a non-string truthy renter throws |
| `Explore.Card` | src/pages/Explore/Explore.jsx:73-87 | the card carries its id and the record's named fields; `{}` metadata gives "Untitled", "Unknown" and the default image; it is marked rented by the viewer exactly when a status was fetched, whose values it shows, and otherwise 0 days and no penalty |
| `Explore.LoadEntry` | src/pages/Explore/Explore.jsx:38-88 | an entry carries its id and exists exactly when its record read, its renter test and any status read all succeed |
| `Explore.LoadCatalogue` | src/pages/Explore/Explore.jsx:30-95 | the pass succeeds exactly when `nextBookId` is read and every id's entry loads; then it holds one card per id, card i being the entry for id i + 1 |
| `Explore.CatalogueInIdOrder` | src/pages/Explore/Explore.jsx:67-88 | a loaded catalogue has one card per id, in order, card i carrying id i+1 |
| `Explore.EmptyCatalogue` | src/pages/Explore/Explore.jsx:35-36 | `nextBookId ≤ 1` loads an empty list |
| `Explore.OneFailedReadAbortsLoad` | src/pages/Explore/Explore.jsx:39-41 | one rejected record read aborts the whole load |
| `Explore.FailedStatusAbortsLoad` | src/pages/Explore/Explore.jsx:53-65 | one rejected status read for a rented book aborts the whole load |
| `Explore.MissingStatusMethodAbortsLoad` | src/pages/Explore/Explore.jsx:53-65 | with no status method answering, a catalogue in which the viewer rents any book never loads |
| `Explore.RenterStatusFetched` | src/pages/Explore/Explore.jsx:59-86 | where the status read answers, the viewer's rented book loads, marked as theirs, with the ledger's time remaining and penalty |
| `Explore.CardContents` | src/pages/Explore/Explore.jsx:73-83 | title/author come from the metadata or default to "Untitled"/"Unknown"; failed metadata gives the defaults and default image; record fields are carried by name |
| `Explore.RentedByMeGating` | src/pages/Explore/Explore.jsx:70-85 | `isRentedByMe` holds exactly when the renter equals the user ignoring case; the card then carries the fetched status, otherwise 0 days and no penalty |
| `Explore.IsOwner` | src/pages/Explore/Explore.jsx:153-155 | no account means not the owner; with one, the test succeeds exactly on a string owner and compares ignoring case |
| `Explore.OwnerMissingFromAbi` | src/pages/Explore/Explore.jsx:75 | a card built from the ABI's tuple has an undefined owner, and a connected viewer's ownership test throws |
| `Explore.DuneScenario` | src/pages/Explore/Explore.jsx:30-90 | a one-book catalogue with resolving metadata yields that card with the gateway image and no status |
| `Explore.ExplorePage.constructor` | src/pages/Explore/Explore.jsx:25-27 | no account, no cards, loading |
| `Explore.ExplorePage.LoadBooks` | src/pages/Explore/Explore.jsx:30-96 | on success the cards replace the list; on any rejection the old list stays; loading ends false |
| `Explore.ExplorePage.Connect` | src/pages/Explore/Explore.jsx:100-107 | the first account is stored and the catalogue is loaded for it |
| `Explore.ExplorePage.HandleRent` | src/pages/Explore/Explore.jsx:111-137 | the outcome is the plan's; only a successful rent reloads the catalogue |
| `BookDetails.DecodePositional` | src/components/BookCard/BookDetails.jsx:55-60 | against the ABI-order decode, rent and metadata id agree, while `owner` takes the availability slot, `isAvailable` the renter slot and `currentRenter` position 3 |
| `BookDetails.DecodeAbi` | src/constants.js:208-234 | no owner; on a result whose names agree with the ABI's positions, the fields are the named ones |
| `BookDetails.PositionalDecodeAgainstAbi` | src/components/BookCard/BookDetails.jsx:55-60 | on the ABI tuple the view's owner is the availability flag, its isAvailable the renter and its currentRenter the deposit |
| `BookDetails.DecodeAbiRoundTrip` | src/constants.js:208-234 | the ABI-order decode returns every field of the ABI tuple |
| `BookDetails.RenterGate` | src/components/BookCard/BookDetails.jsx:84 | null/undefined renters never match; a string renter matches exactly when equal ignoring case; anything else throws |
| `BookDetails.Assemble` | src/components/BookCard/BookDetails.jsx:70-81 | the view's record carries the route id and the decoded fields; titles and authors come from the metadata; `{}` metadata gives "Untitled", "Unknown" and the default image |
| `BookDetails.LoadWith` | src/components/BookCard/BookDetails.jsx:54-94 | the load succeeds exactly when the record read succeeds, the renter test does not throw and, for the renter, the status read succeeds; it carries the route id and the decoded renter, and holds a status exactly for the renter, equal to the one fetched |
| `BookDetails.LoadDetail` | src/components/BookCard/BookDetails.jsx:50-99 | as written, the load succeeds exactly when the record read succeeds, position 3 is null, undefined or a string, and, when that string is the account ignoring case, the status read succeeds |
| `BookDetails.LoadedContents` | src/components/BookCard/BookDetails.jsx:63-81 | the positional fields are carried; defaults "Untitled"/"Unknown"/default image; a failed fetch gives all three |
| `BookDetails.AbiTupleNeverLoads` | src/components/BookCard/BookDetails.jsx:55-99 | an ABI-shaped record never loads under the positional decode, whatever the account |
| `BookDetails.AbiDecodeLoads` | src/components/BookCard/BookDetails.jsx:54-94 | under the ABI-order decode the same record loads with the ledger's rent, availability and renter, and a status exactly for its renter |
| `BookDetails.AbiDecodeStillLacksOwner` | src/components/BookCard/BookDetails.jsx:152-155 | under the ABI-order decode the record loads, but its owner is undefined, so the owner test throws and no action is chosen |
| `BookDetails.ChooseAction` | src/components/BookCard/BookDetails.jsx:152-202 | available: rent button, disabled exactly for the owner; otherwise return exactly for the renter, else rented out; a throwing test yields nothing |
| `BookDetails.BookDetailsPage.constructor` | src/components/BookCard/BookDetails.jsx:28-32 | the route id is kept; no account, book, status or error; loading |
| `BookDetails.BookDetailsPage.Connect` | src/components/BookCard/BookDetails.jsx:35-42 | the first account is stored |
| `BookDetails.BookDetailsPage.LoadData` | src/components/BookCard/BookDetails.jsx:45-103 | no account: nothing changes; success: book and status set, error cleared; failure: both null, error set; loading ends false |
| `BookDetails.BookDetailsPage.RentNow` | src/components/BookCard/BookDetails.jsx:109-132 | a missing or unavailable book is refused before the prompt; otherwise the same plan and deposit as the catalogue |
| `MyBooks.KeptAsId` | src/pages/MyBooks/MyBooks.jsx:31 | every bigint is kept; any other value is kept exactly when its text is all digits |
| `MyBooks.IdText` | src/pages/MyBooks/MyBooks.jsx:32 | a non-negative bigint becomes its canonical decimal, a negative one '-' and its magnitude, and other values their own text |
| `MyBooks.KeepIds` | src/pages/MyBooks/MyBooks.jsx:30-32 | the kept ids are exactly the texts of values that are bigints or all-digit strings; with nothing filtered out, ids and values correspond one to one in order |
| `MyBooks.KeepIdsAppend` | src/pages/MyBooks/MyBooks.jsx:30-32 | filtering preserves order: it distributes over concatenation |
| `MyBooks.KeptIdsAreDecimal` | src/pages/MyBooks/MyBooks.jsx:30-32 | every kept id is decimal text, and every non-negative bigint is kept as its own decimal |
| `MyBooks.NormaliseIds` | src/pages/MyBooks/MyBooks.jsx:28-32 | an array keeps its length; the filtered branch never grows the list |
| `MyBooks.NormalisedIdsAreDecimal` | src/pages/MyBooks/MyBooks.jsx:28-32 | in both branches every normalised id is decimal text, digits or '-' and digits |
| `MyBooks.ArrayIdsElementwise` | src/pages/MyBooks/MyBooks.jsx:28-29 | array input maps element-wise, keeping length and order, each id reading back as its item |
| `MyBooks.NamedOr` | src/pages/MyBooks/MyBooks.jsx:38 | the named field unless it is null or undefined, then the positional one |
| `MyBooks.LoadOwned` | src/pages/MyBooks/MyBooks.jsx:35-62 | a card exists exactly when its record read succeeds and carries the id it was read for |
| `MyBooks.LoadLibrary` | src/pages/MyBooks/MyBooks.jsx:23-63 | a rejected id list rejects the load; a loaded library has one card per normalised id, card i being the one loaded for id i |
| `MyBooks.LibraryFollowsIds` | src/pages/MyBooks/MyBooks.jsx:34-63 | one card per normalised id, in order, card i carrying id i; any rejected read rejects the list |
| `MyBooks.OwnedBookContents` | src/pages/MyBooks/MyBooks.jsx:38-61 | "Unknown Title"/"Unknown Author"/default image defaults; cid, rent and availability fall back to positions 4, 0 and 1 on null/undefined |
| `MyBooks.AgreesWithAbi` | src/pages/MyBooks/MyBooks.jsx:36-59 | on the ABI tuple, named or positional only, the card reads the ledger's rent, availability and metadata |
| `MyBooks.MyBooksPage.constructor` | src/pages/MyBooks/MyBooks.jsx:15-17 | no account, no books, loading |
| `MyBooks.MyBooksPage.Connect` | src/pages/MyBooks/MyBooks.jsx:72-79 | the first account is stored |
| `MyBooks.MyBooksPage.LoadMyBooks` | src/pages/MyBooks/MyBooks.jsx:20-68 | no account: nothing changes; otherwise the loaded list replaces the old one, or the old one stays on rejection; loading ends false |
| `Web3ConnectButton.FormatAddress` | src/components/Web3ConnectButton/Web3ConnectButton.jsx:8 | for length ≥ 10: first 6 characters, "...", last 4, 13 in all; a string of at most 4 is shown whole on both sides |
| `Web3ConnectButton.FormatHidesOnlyTheMiddle` | src/components/Web3ConnectButton/Web3ConnectButton.jsx:8 | the head, the hidden middle and the tail reassemble the address |
| `Web3ConnectButton.FormatScenario` | src/components/Web3ConnectButton/Web3ConnectButton.jsx:8 | a 42-character address is shown as `0x1234...5678` |
| `Web3ConnectButton.FirstOrEmpty` | src/components/Web3ConnectButton/Web3ConnectButton.jsx:26-31 | a non-empty answer selects its first account; an empty one selects "" |
| `Web3ConnectButton.WalletButton.constructor` | src/components/Web3ConnectButton/Web3ConnectButton.jsx:5-6 | no account, not connecting |
| `Web3ConnectButton.WalletButton.ConnectWallet` | src/components/Web3ConnectButton/Web3ConnectButton.jsx:10-37 | an answer selects its first account or ""; no provider or a thrown request leaves the account; connecting is false after every attempt |
| `Web3ConnectButton.WalletButton.CheckIfWalletIsConnected` | src/components/Web3ConnectButton/Web3ConnectButton.jsx:39-50 | only a non-empty answer changes the account, to its first entry |
| `Web3ConnectButton.WalletButton.HandleAccountsChanged` | src/components/Web3ConnectButton/Web3ConnectButton.jsx:55-64 | an empty list clears the account; otherwise the first entry becomes active |

## Left out

- Network I/O: contract calls, `fetch`, `eth_requestAccounts` and `wallet_requestPermissions`. Their answers are inputs (`Chain.Network`, method parameters). How web3 encodes arguments and decodes results is not part of this model. `getRentalStatus` missing from the ABI is recorded under Findings. The ABI's one-argument `rentBook` being called with `(id, days)` appears only as the input `accepted` (`Economics.Submit` with `accepted` false): this repository does not show whether the contract is meant to take the days or to derive them from the value, so there is no corrected behaviour to model.
- Concurrency: `Promise.all` fan-out is a sequential, order-preserving, all-or-nothing map. Unawaited reloads (`loadBooks(account)` after a rent) run to completion inside the call.
- UI effects: rendering (beyond the single-book action choice and the catalogue's owner test), `prompt`, `alert`, `console`, navigation, `window.location.reload`, and React's effect and dependency machinery.
- `weiToEth` display conversions, which use floating point.
- `returnNow` (single-book view) and `handleReturn` (my books). These only send `returnBook` and then navigate or reload.
- src/pages/List/List.jsx, src/pages/Home/Home.jsx, src/components/Header/Header.jsx, src/App.jsx, vite.config.js and src/data/books.js are not part of this model.
- Parsing the prompt's text with `Number(...)`: the day count is given as the resulting number. Finite numbers are exact reals, so double rounding and `-0` are not modelled.
- `Number(nextId) - 1` is exact here. Ids above 2^53, where the double loses precision, are not modelled.
- Metadata fields that are JSON values other than strings are not modelled. Neither is a document that parses to a non-object such as `null`, on which `metadata.title` would throw.
- `toLowerCase()` is modelled on ASCII only. Addresses are hexadecimal.
- `Economics.BigIntOfValue`: strings other than "" or plain digits are treated as throwing. `BigInt` also accepts surrounding whitespace, a sign and `0x`/`0o`/`0b` prefixes. Contract fields are bigints, so this path is not taken with the ABI's tuple.
- `MyBooks.KeepIds`: a non-bigint value is represented by its `String(...)` text, and `v.toString()` is taken to equal it. That holds for primitives and plain arrays, not for objects with a custom `toString`.
- `MyBooks.NormaliseIds`: in the array branch the elements are taken to be bigints, as the ABI's `uint256[]` output decodes.
- The single-book view's route parameter is taken to be a decimal id. A non-numeric parameter, for which `Number(id)` is NaN, is not modelled.

## Findings

| source | as written | input that shows it | evidently intended | confidence | as-written member | corrected member |
|---|---|---|---|---|---|---|
| src/components/BookCard/BookDetails.jsx:55-60 | `result[1]` is read as `owner`, `result[2]` as `isAvailable`, `result[3]` as `currentRenter` | any `getBookDetails` answer shaped as the ABI declares it (src/constants.js:208-234), e.g. `(1e15, true, "0xAbc", 0, "Qx1")`: `currentRenter` is the deposit bigint, `currentRenter?.toLowerCase()` throws, and the view always shows "Couldn’t load this book" | read `dailyRentWei`, `isAvailable`, `currentRenter`, `metadataCid` from positions 0, 1, 2, 4; the owner still has to come from elsewhere, because without it the render's owner test throws (`BookDetails.AbiDecodeStillLacksOwner`) | medium, not executed (assumes web3 decodes `uint256` as a bigint, as the comment at src/pages/MyBooks/MyBooks.jsx:27 says; were it a decimal string, the view would load and the render's `book.owner.toLowerCase()` would throw on the boolean instead; the deployed contract may also still return the older 5-field layout) | `BookDetails.AbiTupleNeverLoads` | `BookDetails.AbiDecodeLoads` |
| src/pages/Explore/Explore.jsx:59 | `c.methods.getRentalStatus(...)` is called, but the ABI (src/constants.js) declares no such method, so `c.methods.getRentalStatus` is undefined and the call throws; the single-book view does the same at src/components/BookCard/BookDetails.jsx:85-87 | a viewer who rents any book opens the catalogue: the pass aborts and the list stays empty; in the single-book view the renter gets the load error | a status read that answers, declared in the ABI, so the renter's card shows the time remaining and penalty | medium, not executed (the ABI may lag behind the deployed contract) | `Explore.MissingStatusMethodAbortsLoad` | `Explore.RenterStatusFetched` |
