/** The catalogue page (src/pages/Explore/Explore.jsx): enumerate every book id the
    ledger has issued, merge each record with its metadata document and, for the books
    the viewer rents, with the rental status; rent a book from its card. */
module Explore {
  import opened Wrappers
  import opened JsValues
  import opened Chain
  import opened Economics

  /** One catalogue card, with the record's fields read by name. */
  datatype CatalogueBook = CatalogueBook(
    id: nat,
    owner: JsValue,
    currentRenter: JsValue,
    title: string,
    author: string,
    dailyRentWei: JsValue,
    isAvailable: JsValue,
    imageUri: string,
    timeRemaining: nat,
    isPenalty: bool,
    isRentedByMe: bool)

  /** The ids `1 .. nextBookId - 1`; `Array.from` with a negative length gives `[]`. */
  function BookIds(nextBookId: nat): (ids: seq<nat>)
    ensures |ids| + 1 == nextBookId || (nextBookId <= 1 && ids == [])
    ensures forall i :: 0 <= i < |ids| ==> ids[i] == i + 1 && ids[i] < nextBookId
  {
    seq(if nextBookId <= 1 then 0 else nextBookId - 1, i requires i >= 0 => i + 1)
  }

  /** The catalogue enumerates exactly the ids below `nextBookId`, ascending, and
      nothing when `nextBookId` is 0 or 1. */
  lemma BookIdsExactRange(nextBookId: nat)
    ensures forall k :: k in BookIds(nextBookId) <==> 1 <= k < nextBookId
    ensures forall i, j :: 0 <= i < j < |BookIds(nextBookId)| ==> BookIds(nextBookId)[i] < BookIds(nextBookId)[j]
    ensures nextBookId <= 1 <==> BookIds(nextBookId) == []
  {
    var ids := BookIds(nextBookId);
    forall k | 1 <= k < nextBookId ensures k in ids {
      assert ids[k - 1] == k;
    }
  }

  /** `userAddress && b.currentRenter && b.currentRenter.toLowerCase() === userAddress.toLowerCase()`:
      whether the rental status is requested; None when `toLowerCase` is called on a
      renter field that is not a string (a TypeError). */
  function StatusWanted(user: Option<string>, renter: JsValue): (w: Option<bool>)
    ensures w == Some(true) <==> user.Some? && user.value != "" && renter.Str? && SameAddress(renter.s, user.value)
    ensures w.None? <==> user.Some? && user.value != "" && Truthy(renter) && !renter.Str?
  {
    if user.None? || user.value == "" || !Truthy(renter) then Some(false)
    else
      match LowerCaseOf(renter)
      case None => None
      case Some(r) => Some(r == Lower(user.value))
  }

  /** The card built from a record, its metadata and the status, if one was fetched. */
  function Card(id: nat, b: CallResult, meta: Metadata, status: Option<RentalStatus>): (card: CatalogueBook)
    ensures card.id == id && card.isRentedByMe == status.Some?
    ensures card.owner == Get(b, "owner") && card.currentRenter == Get(b, "currentRenter")
    ensures card.dailyRentWei == Get(b, "dailyRentWei") && card.isAvailable == Get(b, "isAvailable")
    ensures meta == EMPTY_METADATA ==> card.title == "Untitled" && card.author == "Unknown" && card.imageUri == DEFAULT_IMAGE
    ensures status.Some? ==> card.timeRemaining == status.value.timeRemaining && card.isPenalty == status.value.isPenalty
    ensures status.None? ==> card.timeRemaining == 0 && !card.isPenalty
  {
    CatalogueBook(
      id,
      Get(b, "owner"),
      Get(b, "currentRenter"),
      meta.title.GetOr("Untitled"),
      meta.author.GetOr("Unknown"),
      Get(b, "dailyRentWei"),
      Get(b, "isAvailable"),
      ImageUri(meta),
      if status.Some? then status.value.timeRemaining else 0,
      if status.Some? then status.value.isPenalty else false,
      status.Some?)
  }

  /** Everything the load does for one id; None when any of its reads rejects. */
  function LoadEntry(id: nat, user: Option<string>, net: Network): (r: Option<CatalogueBook>)
    ensures r.Some? ==> r.value.id == id
    ensures r.Some? <==>
              && net.bookDetails(NatToDecimal(id)).Some?
              && var b := net.bookDetails(NatToDecimal(id)).value;
                 && StatusWanted(user, Get(b, "currentRenter")).Some?
                 && (StatusWanted(user, Get(b, "currentRenter")) == Some(true) ==>
                       net.rentalStatus(NatToDecimal(id), user.value).Some?)
  {
    match net.bookDetails(NatToDecimal(id))
    case None => None
    case Some(b) =>
      var meta := MetadataFor(net, Get(b, "metadataCid"));
      match StatusWanted(user, Get(b, "currentRenter"))
      case None => None
      case Some(wanted) =>
        if !wanted then Some(Card(id, b, meta, None))
        else
          match net.rentalStatus(NatToDecimal(id), user.value)
          case None => None
          case Some(s) => Some(Card(id, b, meta, Some(s)))
  }

  /** `loadBooks`: the whole catalogue, or None when any read of the pass rejects. */
  function LoadCatalogue(user: Option<string>, net: Network): (r: Option<seq<CatalogueBook>>)
    ensures r.Some? <==>
              net.nextBookId.Some? && forall id :: id in BookIds(net.nextBookId.value) ==> LoadEntry(id, user, net).Some?
    ensures r.Some? ==> |r.value| == |BookIds(net.nextBookId.value)|
    ensures r.Some? ==> forall i :: 0 <= i < |r.value| ==> LoadEntry(i + 1, user, net) == Some(r.value[i])
  {
    match net.nextBookId
    case None => None
    case Some(n) => ReadAll(BookIds(n), id => LoadEntry(id, user, net))
  }

  /** A successful load has one card per id, in id order, card i carrying id i + 1. */
  lemma CatalogueInIdOrder(user: Option<string>, net: Network)
    requires LoadCatalogue(user, net).Some?
    ensures net.nextBookId.Some?
    ensures |LoadCatalogue(user, net).value| == |BookIds(net.nextBookId.value)|
    ensures forall i :: 0 <= i < |LoadCatalogue(user, net).value| ==> LoadCatalogue(user, net).value[i].id == i + 1
  {
    var ids := BookIds(net.nextBookId.value);
    var list := LoadCatalogue(user, net).value;
    forall i | 0 <= i < |list| ensures list[i].id == i + 1 {
      assert list[i] == LoadEntry(ids[i], user, net).value;
    }
  }

  /** With `nextBookId` at most 1 the catalogue loads empty. */
  lemma EmptyCatalogue(user: Option<string>, net: Network)
    requires net.nextBookId.Some? && net.nextBookId.value <= 1
    ensures LoadCatalogue(user, net) == Some([])
  {
  }

  /** One rejected record read aborts the whole pass: it is not skipped. */
  lemma OneFailedReadAbortsLoad(user: Option<string>, net: Network, k: nat)
    requires net.nextBookId.Some? && 1 <= k < net.nextBookId.value
    requires net.bookDetails(NatToDecimal(k)).None?
    ensures LoadCatalogue(user, net).None?
  {
    var ids := BookIds(net.nextBookId.value);
    assert ids[k - 1] == k;
    assert LoadEntry(ids[k - 1], user, net).None?;
  }

  /** So does a rejected status read for a book the viewer rents. */
  lemma FailedStatusAbortsLoad(user: Option<string>, net: Network, k: nat)
    requires net.nextBookId.Some? && 1 <= k < net.nextBookId.value
    requires net.bookDetails(NatToDecimal(k)).Some?
    requires StatusWanted(user, Get(net.bookDetails(NatToDecimal(k)).value, "currentRenter")) == Some(true)
    requires net.rentalStatus(NatToDecimal(k), user.value).None?
    ensures LoadCatalogue(user, net).None?
  {
    var ids := BookIds(net.nextBookId.value);
    assert ids[k - 1] == k;
    assert LoadEntry(ids[k - 1], user, net).None?;
  }

  /** The contract's ABI has no `getRentalStatus`, so the call throws for every book and
      viewer; as soon as the viewer rents any book, the whole catalogue fails to load. */
  lemma MissingStatusMethodAbortsLoad(user: Option<string>, net: Network, k: nat)
    requires forall id, who :: net.rentalStatus(id, who).None?
    requires net.nextBookId.Some? && 1 <= k < net.nextBookId.value
    requires net.bookDetails(NatToDecimal(k)).Some?
    requires StatusWanted(user, Get(net.bookDetails(NatToDecimal(k)).value, "currentRenter")) == Some(true)
    ensures LoadCatalogue(user, net).None?
  {
    FailedStatusAbortsLoad(user, net, k);
  }

  /** Where the status read answers, the viewer's rental loads with the ledger's status. */
  lemma RenterStatusFetched(id: nat, user: Option<string>, net: Network)
    requires net.bookDetails(NatToDecimal(id)).Some?
    requires StatusWanted(user, Get(net.bookDetails(NatToDecimal(id)).value, "currentRenter")) == Some(true)
    requires net.rentalStatus(NatToDecimal(id), user.value).Some?
    ensures LoadEntry(id, user, net).Some?
    ensures var card := LoadEntry(id, user, net).value;
            var s := net.rentalStatus(NatToDecimal(id), user.value).value;
            card.isRentedByMe && card.timeRemaining == s.timeRemaining && card.isPenalty == s.isPenalty
  {
  }

  /** What a card shows: the metadata's title and author or "Untitled"/"Unknown"; a
      failed metadata fetch gives exactly the defaults and the default image; the
      record's named fields are carried unchanged. */
  lemma CardContents(id: nat, user: Option<string>, net: Network)
    requires LoadEntry(id, user, net).Some?
    ensures var b := net.bookDetails(NatToDecimal(id)).value;
            var meta := MetadataFor(net, Get(b, "metadataCid"));
            var card := LoadEntry(id, user, net).value;
            && card.title == (if meta.title.Some? then meta.title.value else "Untitled")
            && card.author == (if meta.author.Some? then meta.author.value else "Unknown")
            && card.imageUri == ImageUri(meta)
            && card.owner == Get(b, "owner") && card.currentRenter == Get(b, "currentRenter")
            && card.dailyRentWei == Get(b, "dailyRentWei") && card.isAvailable == Get(b, "isAvailable")
            && (net.fetchJson(IPFS_GATEWAY + ToText(Get(b, "metadataCid"))).None? ==>
                  card.title == "Untitled" && card.author == "Unknown" && card.imageUri == DEFAULT_IMAGE)
  {
  }

  /** A card is marked as rented by the viewer exactly when a viewer address is present
      and the record's renter equals it ignoring case; then it carries the fetched status,
      and otherwise 0 days remaining and no penalty. */
  lemma RentedByMeGating(id: nat, user: Option<string>, net: Network)
    requires LoadEntry(id, user, net).Some?
    ensures var b := net.bookDetails(NatToDecimal(id)).value;
            var card := LoadEntry(id, user, net).value;
            && (card.isRentedByMe <==>
                  user.Some? && user.value != "" && Get(b, "currentRenter").Str?
                  && SameAddress(Get(b, "currentRenter").s, user.value))
            && (card.isRentedByMe ==>
                  var s := net.rentalStatus(NatToDecimal(id), user.value).value;
                  card.timeRemaining == s.timeRemaining && card.isPenalty == s.isPenalty)
            && (!card.isRentedByMe ==> card.timeRemaining == 0 && !card.isPenalty)
  {
  }

  /** The rent button test `account && account.toLowerCase() === b.owner.toLowerCase()`;
      None when `b.owner` is not a string (a TypeError while rendering). */
  function IsOwner(account: Option<string>, owner: JsValue): (r: Option<bool>)
    ensures account.None? || account.value == "" ==> r == Some(false)
    ensures account.Some? && account.value != "" ==>
              (r.Some? <==> owner.Str?) && (owner.Str? ==> r == Some(SameAddress(account.value, owner.s)))
  {
    if account.None? || account.value == "" then Some(false)
    else
      match LowerCaseOf(owner)
      case None => None
      case Some(o) => Some(Lower(account.value) == o)
  }

  /** The ABI's `getBookDetails` has no `owner` output, so every card built from it has
      an undefined owner, and a connected viewer's ownership test throws. */
  lemma OwnerMissingFromAbi(id: nat, account: string, rent: nat, available: bool, renter: string,
                            deposit: nat, cid: string, meta: Metadata, status: Option<RentalStatus>)
    requires account != ""
    ensures var card := Card(id, AbiBookDetails(rent, available, renter, deposit, cid), meta, status);
            card.owner == Undefined && IsOwner(Some(account), card.owner).None?
  {
  }

  /** The network of the single-book scenario: one available book with no renter whose
      metadata document resolves. */
  function DuneNetwork(): Network {
    Network(
      Some(2),
      id => if id == "1" then Some(AbiBookDetails(1000000000000000, true, "0x0", 0, "Qx1")) else None,
      (id, user) => None,
      user => None,
      url => if url == IPFS_GATEWAY + "Qx1" then Some(Metadata(Some("Dune"), Some("Frank Herbert"), Some("Qx2"))) else None)
  }

  /** The single-book scenario: the catalogue holds one card with the resolved metadata,
      the gateway image and no rental status. */
  lemma DuneScenario()
    ensures LoadCatalogue(Some("0xAb1"), DuneNetwork()) ==
              Some([CatalogueBook(1, Undefined, Str("0x0"), "Dune", "Frank Herbert", BigInt(1000000000000000),
                                  Bool(true), IPFS_GATEWAY + "Qx2", 0, false, false)])
  {
    var net := DuneNetwork();
    var b := AbiBookDetails(1000000000000000, true, "0x0", 0, "Qx1");
    assert NatToDecimal(1) == "1";
    assert net.bookDetails("1") == Some(b);
    assert MetadataFor(net, Get(b, "metadataCid")) == Metadata(Some("Dune"), Some("Frank Herbert"), Some("Qx2"));
    assert Lower("0x0")[2] == '0' && Lower("0xAb1")[2] == 'a';
    assert StatusWanted(Some("0xAb1"), Get(b, "currentRenter")) == Some(false);
    var card := LoadEntry(1, Some("0xAb1"), net);
    assert card == Some(CatalogueBook(1, Undefined, Str("0x0"), "Dune", "Frank Herbert", BigInt(1000000000000000),
                                      Bool(true), IPFS_GATEWAY + "Qx2", 0, false, false));
    assert BookIds(2) == [1];
    var all := LoadCatalogue(Some("0xAb1"), net);
    assert all.Some? && |all.value| == 1 && all.value[0] == card.value;
    assert all.value == [card.value];
  }

  /** The page's state: the viewer, the cards and the loading flag. */
  class ExplorePage {
    var account: Option<string>
    var books: seq<CatalogueBook>
    var loading: bool

    constructor ()
      ensures account == None && books == [] && loading
    {
      account := None;
      books := [];
      loading := true;
    }

    /** `loadBooks(userAddress)`: on success the cards replace the old list; on any
        rejection the old list stays; either way loading ends. */
    method LoadBooks(user: Option<string>, net: Network)
      modifies this`books, this`loading
      ensures !loading
      ensures LoadCatalogue(user, net).Some? ==> books == LoadCatalogue(user, net).value
      ensures LoadCatalogue(user, net).None? ==> books == old(books)
    {
      loading := true;
      var result := LoadCatalogue(user, net);
      if result.Some? {
        books := result.value;
      }
      loading := false;
    }

    /** The wallet effect: remember the first account, then load the catalogue for it. */
    method Connect(addr: Option<string>, net: Network)
      modifies this
      ensures account == addr && !loading
      ensures LoadCatalogue(addr, net).Some? ==> books == LoadCatalogue(addr, net).value
      ensures LoadCatalogue(addr, net).None? ==> books == old(books)
    {
      account := addr;
      LoadBooks(addr, net);
    }

    /** `handleRent(book)` with the answer to the days prompt: the plan decides whether a
        transaction is sent and for how much; after a successful rent the catalogue is
        reloaded for the viewer, otherwise nothing changes. */
    method HandleRent(book: CatalogueBook, days: JsNumber, accepted: bool, net: Network)
      returns (outcome: RentOutcome)
      modifies this`books, this`loading
      ensures outcome == Submit(PlanRent(days, book.dailyRentWei), accepted)
      ensures outcome.Rented? ==> !loading
      ensures outcome.Rented? && LoadCatalogue(account, net).Some? ==> books == LoadCatalogue(account, net).value
      ensures !(outcome.Rented? && LoadCatalogue(account, net).Some?) ==> books == old(books)
      ensures !outcome.Rented? ==> loading == old(loading)
    {
      outcome := Submit(PlanRent(days, book.dailyRentWei), accepted);
      if outcome.Rented? {
        LoadBooks(account, net);
      }
    }
  }
}
