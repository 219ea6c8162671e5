/** The single-book view (src/components/BookCard/BookDetails.jsx): read one record by
    position, merge it with its metadata, fetch the rental status for its renter, pick
    the action the viewer is offered, and rent. */
module BookDetails {
  import opened Wrappers
  import opened JsValues
  import opened Chain
  import opened Economics

  /** The five fields the view takes from the `getBookDetails` result. */
  datatype Decoded = Decoded(dailyRentWei: JsValue, owner: JsValue, isAvailable: JsValue,
                             currentRenter: JsValue, metadataCid: JsValue)

  /** The decode as written: `result[0..4]` read as
      `(dailyRentWei, owner, isAvailable, currentRenter, metadataCid)`. */
  function DecodePositional(r: CallResult): (d: Decoded)
    ensures d.dailyRentWei == DecodeAbi(r).dailyRentWei && d.metadataCid == DecodeAbi(r).metadataCid
    ensures d.owner == DecodeAbi(r).isAvailable && d.isAvailable == DecodeAbi(r).currentRenter
    ensures d.currentRenter == At(r, 3)
  {
    Decoded(At(r, 0), At(r, 1), At(r, 2), At(r, 3), At(r, 4))
  }

  /** The decode that follows the ABI's output order
      `(dailyRentWei, isAvailable, currentRenter, depositAmountWei, metadataCid)`; the
      tuple has no owner, so none is read. */
  function DecodeAbi(r: CallResult): (d: Decoded)
    ensures d.owner == Undefined
    ensures Get(r, "dailyRentWei") == At(r, 0) && Get(r, "isAvailable") == At(r, 1)
            && Get(r, "currentRenter") == At(r, 2) && Get(r, "metadataCid") == At(r, 4) ==>
              d == Decoded(Get(r, "dailyRentWei"), Undefined, Get(r, "isAvailable"),
                           Get(r, "currentRenter"), Get(r, "metadataCid"))
  {
    Decoded(At(r, 0), Undefined, At(r, 1), At(r, 2), At(r, 4))
  }

  /** Against the ABI's tuple only positions 0 and 4 line up: the view's `owner` is the
      availability flag, its `isAvailable` the renter's address and its
      `currentRenter` the deposit amount. */
  lemma PositionalDecodeAgainstAbi(rent: nat, available: bool, renter: string, deposit: nat, cid: string)
    ensures DecodePositional(AbiBookDetails(rent, available, renter, deposit, cid))
            == Decoded(BigInt(rent), Bool(available), Str(renter), BigInt(deposit), Str(cid))
  {
  }

  /** The ABI-order decode gives back every field the tuple carries. */
  lemma DecodeAbiRoundTrip(rent: nat, available: bool, renter: string, deposit: nat, cid: string)
    ensures DecodeAbi(AbiBookDetails(rent, available, renter, deposit, cid))
            == Decoded(BigInt(rent), Undefined, Bool(available), Str(renter), Str(cid))
  {
  }

  /** The record as the view holds it. */
  datatype DetailBook = DetailBook(id: nat, owner: JsValue, currentRenter: JsValue, isAvailable: JsValue,
                                   dailyRentWei: JsValue, title: string, author: string, imageUri: string)

  datatype RentalView = RentalView(timeRemaining: nat, isPenalty: bool)

  /** A successful load: the record and, for its renter, the rental status. */
  datatype Loaded = Loaded(book: DetailBook, status: Option<RentalView>)

  const LOAD_ERROR: string := "Couldn’t load this book. It may not exist on this network."

  /** `currentRenter?.toLowerCase() === account.toLowerCase()`: null and undefined compare
      unequal; any other non-string throws a TypeError (None). */
  function RenterGate(renter: JsValue, account: string): (g: Option<bool>)
    ensures g.None? <==> !(renter.Undefined? || renter.Null? || renter.Str?)
    ensures g == Some(true) <==> renter.Str? && SameAddress(renter.s, account)
  {
    match renter
    case Undefined => Some(false)
    case Null => Some(false)
    case Str(s) => Some(Lower(s) == Lower(account))
    case _ => None
  }

  /** The record merged with its metadata; defaults as in the catalogue. */
  function Assemble(id: nat, d: Decoded, meta: Metadata): (book: DetailBook)
    ensures book.id == id && book.owner == d.owner && book.currentRenter == d.currentRenter
    ensures book.isAvailable == d.isAvailable && book.dailyRentWei == d.dailyRentWei
    ensures meta.title.Some? ==> book.title == meta.title.value
    ensures meta.author.Some? ==> book.author == meta.author.value
    ensures meta == EMPTY_METADATA ==> book.title == "Untitled" && book.author == "Unknown" && book.imageUri == DEFAULT_IMAGE
  {
    DetailBook(id, d.owner, d.currentRenter, d.isAvailable, d.dailyRentWei,
               meta.title.GetOr("Untitled"), meta.author.GetOr("Unknown"), ImageUri(meta))
  }

  /** The `try` block of `loadData` with a given decode: None when the record read
      rejects, the renter test throws or the status read rejects. */
  function LoadWith(decode: CallResult -> Decoded, id: nat, account: string, net: Network): (r: Option<Loaded>)
    ensures r.Some? <==>
              && net.bookDetails(NatToDecimal(id)).Some?
              && var gate := RenterGate(decode(net.bookDetails(NatToDecimal(id)).value).currentRenter, account);
                 && gate.Some?
                 && (gate == Some(true) ==> net.rentalStatus(NatToDecimal(id), account).Some?)
    ensures r.Some? ==> r.value.book.id == id
    ensures r.Some? ==> r.value.book.currentRenter == decode(net.bookDetails(NatToDecimal(id)).value).currentRenter
    ensures r.Some? ==> (r.value.status.Some? <==> r.value.book.currentRenter.Str? && SameAddress(r.value.book.currentRenter.s, account))
    ensures r.Some? && r.value.status.Some? ==>
              net.rentalStatus(NatToDecimal(id), account)
                == Some(RentalStatus(r.value.status.value.timeRemaining, r.value.status.value.isPenalty))
  {
    match net.bookDetails(NatToDecimal(id))
    case None => None
    case Some(result) =>
      var d := decode(result);
      var book := Assemble(id, d, MetadataFor(net, d.metadataCid));
      match RenterGate(d.currentRenter, account)
      case None => None
      case Some(isRenter) =>
        if !isRenter then Some(Loaded(book, None))
        else
          match net.rentalStatus(NatToDecimal(id), account)
          case None => None
          case Some(s) => Some(Loaded(book, Some(RentalView(s.timeRemaining, s.isPenalty))))
  }

  /** `loadData` as written. */
  function LoadDetail(id: nat, account: string, net: Network): (r: Option<Loaded>)
    ensures r.Some? <==>
              && net.bookDetails(NatToDecimal(id)).Some?
              && var renter := At(net.bookDetails(NatToDecimal(id)).value, 3);
                 && (renter.Undefined? || renter.Null? || renter.Str?)
                 && (renter.Str? && SameAddress(renter.s, account) ==> net.rentalStatus(NatToDecimal(id), account).Some?)
    ensures r.Some? ==> r.value.book.currentRenter == At(net.bookDetails(NatToDecimal(id)).value, 3)
  {
    LoadWith(DecodePositional, id, account, net)
  }

  /** What a successful load shows: the record at the route's id, the metadata's title
      and author or "Untitled"/"Unknown", and the default image when the document has
      no image; a failed metadata fetch gives exactly the defaults. */
  lemma LoadedContents(id: nat, account: string, net: Network)
    requires LoadDetail(id, account, net).Some?
    ensures var d := DecodePositional(net.bookDetails(NatToDecimal(id)).value);
            var meta := MetadataFor(net, d.metadataCid);
            var book := LoadDetail(id, account, net).value.book;
            && book.id == id && book.dailyRentWei == d.dailyRentWei && book.owner == d.owner
            && book.isAvailable == d.isAvailable && book.currentRenter == d.currentRenter
            && book.title == (if meta.title.Some? then meta.title.value else "Untitled")
            && book.author == (if meta.author.Some? then meta.author.value else "Unknown")
            && book.imageUri == ImageUri(meta)
            && (net.fetchJson(IPFS_GATEWAY + ToText(d.metadataCid)).None? ==>
                  book.title == "Untitled" && book.author == "Unknown" && book.imageUri == DEFAULT_IMAGE)
  {
  }

  /** As written, a record shaped as the ABI declares it never loads: the view's
      `currentRenter` is the deposit bigint, on which `?.toLowerCase()` throws, so the
      error path is taken whatever the account. */
  lemma AbiTupleNeverLoads(id: nat, account: string, net: Network,
                           rent: nat, available: bool, renter: string, deposit: nat, cid: string)
    requires net.bookDetails(NatToDecimal(id)) == Some(AbiBookDetails(rent, available, renter, deposit, cid))
    ensures LoadDetail(id, account, net).None?
  {
    PositionalDecodeAgainstAbi(rent, available, renter, deposit, cid);
  }

  /** With the ABI-order decode the same record loads: it carries the ledger's rent,
      availability and renter, and a status exactly when the viewer is the renter
      (provided that status read answers). */
  lemma AbiDecodeLoads(id: nat, account: string, net: Network,
                       rent: nat, available: bool, renter: string, deposit: nat, cid: string)
    requires net.bookDetails(NatToDecimal(id)) == Some(AbiBookDetails(rent, available, renter, deposit, cid))
    requires SameAddress(renter, account) ==> net.rentalStatus(NatToDecimal(id), account).Some?
    ensures var r := LoadWith(DecodeAbi, id, account, net);
            && r.Some?
            && r.value.book.dailyRentWei == BigInt(rent)
            && r.value.book.isAvailable == Bool(available)
            && r.value.book.currentRenter == Str(renter)
            && (r.value.status.Some? <==> SameAddress(renter, account))
  {
    DecodeAbiRoundTrip(rent, available, renter, deposit, cid);
  }

  /** The ABI-order decode does not make the view usable on its own: the tuple has no
      owner, so the render's `book.owner.toLowerCase()` throws and no action is chosen. */
  lemma AbiDecodeStillLacksOwner(id: nat, account: string, net: Network,
                                 rent: nat, available: bool, renter: string, deposit: nat, cid: string)
    requires net.bookDetails(NatToDecimal(id)) == Some(AbiBookDetails(rent, available, renter, deposit, cid))
    requires SameAddress(renter, account) ==> net.rentalStatus(NatToDecimal(id), account).Some?
    ensures LoadWith(DecodeAbi, id, account, net).Some?
    ensures ChooseAction(account, LoadWith(DecodeAbi, id, account, net).value.book).None?
  {
    AbiDecodeLoads(id, account, net, rent, available, renter, deposit, cid);
  }

  /** The actions the view offers. */
  datatype Action = RentButton(enabled: bool) | ReturnButton | RentedOut

  /** `isOwner`, `isRenter` and the button choice: an available book offers the rent
      button, disabled for its owner; otherwise the renter may return it and everyone
      else sees that it is rented out. None when either test throws. */
  function ChooseAction(account: string, book: DetailBook): (a: Option<Action>)
    ensures a.Some? <==> book.owner.Str? && RenterGate(book.currentRenter, account).Some?
    ensures a.Some? ==> (a.value.RentButton? <==> Truthy(book.isAvailable))
    ensures a.Some? && a.value.RentButton? ==> (a.value.enabled <==> !SameAddress(account, book.owner.s))
    ensures a == Some(ReturnButton) <==>
              a.Some? && !Truthy(book.isAvailable) && book.currentRenter.Str? && SameAddress(book.currentRenter.s, account)
  {
    match LowerCaseOf(book.owner)
    case None => None
    case Some(owner) =>
      var isOwner := Lower(account) == owner;
      match RenterGate(book.currentRenter, account)
      case None => None
      case Some(isRenter) =>
        if Truthy(book.isAvailable) then Some(RentButton(!isOwner))
        else if isRenter then Some(ReturnButton)
        else Some(RentedOut)
  }

  /** The view's state. */
  class BookDetailsPage {
    const id: nat
    var account: Option<string>
    var book: Option<DetailBook>
    var status: Option<RentalView>
    var loading: bool
    var error: Option<string>

    constructor (routeId: nat)
      ensures id == routeId && account == None && book == None && status == None && loading && error == None
    {
      id := routeId;
      account := None;
      book := None;
      status := None;
      loading := true;
      error := None;
    }

    /** The wallet effect: remember the first account. */
    method Connect(addr: Option<string>)
      modifies this`account
      ensures account == addr
    {
      account := addr;
    }

    /** `loadData`: nothing happens without an account; otherwise the record and status
        are set, or on any failure both are cleared and the error is set; loading ends
        either way. */
    method LoadData(net: Network)
      modifies this`book, this`status, this`loading, this`error
      ensures account.None? || account.value == "" ==>
                book == old(book) && status == old(status) && loading == old(loading) && error == old(error)
      ensures account.Some? && account.value != "" ==> !loading
      ensures account.Some? && account.value != "" && LoadDetail(id, account.value, net).Some? ==>
                && book == Some(LoadDetail(id, account.value, net).value.book)
                && status == LoadDetail(id, account.value, net).value.status
                && error == None
      ensures account.Some? && account.value != "" && LoadDetail(id, account.value, net).None? ==>
                book == None && status == None && error == Some(LOAD_ERROR)
    {
      if account.None? || account.value == "" {
        return;
      }
      loading := true;
      error := None;
      var result := LoadDetail(id, account.value, net);
      if result.Some? {
        book := Some(result.value.book);
        status := result.value.status;
      } else {
        error := Some(LOAD_ERROR);
        book := None;
        status := None;
      }
      loading := false;
    }

    /** `rentNow` with the answer to the days prompt: a missing or unavailable book is
        refused before the prompt; otherwise the same plan and deposit as the
        catalogue. Nothing in the view changes. */
    method RentNow(days: JsNumber, accepted: bool) returns (outcome: RentOutcome)
      ensures book.None? || !Truthy(book.value.isAvailable) ==> outcome == AlreadyRented
      ensures book.Some? && Truthy(book.value.isAvailable) ==>
                outcome == Submit(PlanRent(days, book.value.dailyRentWei), accepted)
    {
      if book.None? || !Truthy(book.value.isAvailable) {
        return AlreadyRented;
      }
      outcome := Submit(PlanRent(days, book.value.dailyRentWei), accepted);
    }
  }
}
