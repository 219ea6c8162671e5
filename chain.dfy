/** What the pages receive from the ledger contract and from the content gateway. Each
    read is an input: a total function from its arguments to the answer, `None` when
    the call is rejected or the fetch fails. */
module Chain {
  import opened Wrappers
  import opened JsValues

  /** A decoded call result: the outputs by position and, for named outputs, by name
      (web3 gives both views of one tuple). */
  datatype CallResult = CallResult(byIndex: seq<JsValue>, byName: map<string, JsValue>)

  /** `result[i]`: undefined beyond the end. */
  function At(r: CallResult, i: nat): JsValue {
    if i < |r.byIndex| then r.byIndex[i] else Undefined
  }

  /** `result.name`: undefined for a name the ABI does not give. */
  function Get(r: CallResult, name: string): JsValue {
    if name in r.byName then r.byName[name] else Undefined
  }

  /** The result of `getBookDetails(id)` as the contract ABI declares it: outputs
      `(dailyRentWei, isAvailable, currentRenter, depositAmountWei, metadataCid)`. */
  function AbiBookDetails(dailyRentWei: nat, isAvailable: bool, currentRenter: string,
                          depositAmountWei: nat, metadataCid: string): (r: CallResult)
    ensures |r.byIndex| == 5
    ensures At(r, 0) == Get(r, "dailyRentWei") == BigInt(dailyRentWei)
    ensures At(r, 1) == Get(r, "isAvailable") == Bool(isAvailable)
    ensures At(r, 2) == Get(r, "currentRenter") == Str(currentRenter)
    ensures At(r, 3) == Get(r, "depositAmountWei") == BigInt(depositAmountWei)
    ensures At(r, 4) == Get(r, "metadataCid") == Str(metadataCid)
    ensures Get(r, "owner") == Undefined
  {
    CallResult(
      [BigInt(dailyRentWei), Bool(isAvailable), Str(currentRenter), BigInt(depositAmountWei), Str(metadataCid)],
      map["dailyRentWei" := BigInt(dailyRentWei), "isAvailable" := Bool(isAvailable),
          "currentRenter" := Str(currentRenter), "depositAmountWei" := BigInt(depositAmountWei),
          "metadataCid" := Str(metadataCid)])
  }

  /** The fields of a metadata document that the pages read; `None` for a field that is
      absent or null. A document that could not be fetched or parsed is `{}`. */
  datatype Metadata = Metadata(title: Option<string>, author: Option<string>, imageCid: Option<string>)

  const EMPTY_METADATA: Metadata := Metadata(None, None, None)

  /** The `getRentalStatus(id, user)` answer: whole days left and whether the rental is
      in its penalty period. */
  datatype RentalStatus = RentalStatus(timeRemaining: nat, isPenalty: bool)

  /** A value of the `getUserRentedBooks(account)` answer as the non-array branch sees
      it: a bigint, or any other value together with its `String(...)` text. */
  datatype RawValue = BigIntValue(i: int) | OtherValue(text: string)

  /** The answer of `getUserRentedBooks(account)`: a real array of bigints, or an
      array-like object whose values are enumerated. */
  datatype RentedBooks = ArrayResult(items: seq<int>) | ObjectResult(values: seq<RawValue>)

  /** Everything the network can answer. Book ids are passed as their decimal text. */
  datatype Network = Network(
    nextBookId: Option<nat>,
    bookDetails: string -> Option<CallResult>,
    rentalStatus: (string, string) -> Option<RentalStatus>,
    rentedBooks: string -> Option<RentedBooks>,
    fetchJson: string -> Option<Metadata>)

  const IPFS_GATEWAY: string := "https://silver-total-swallow-275.mypinata.cloud/ipfs/"
  const DEFAULT_IMAGE: string := "/default-image.jpg"

  /** The metadata document at `gateway + cid`; a failed fetch or parse becomes `{}`. */
  function MetadataFor(net: Network, cid: JsValue): (m: Metadata)
    ensures net.fetchJson(IPFS_GATEWAY + ToText(cid)).None? ==> m == EMPTY_METADATA
    ensures net.fetchJson(IPFS_GATEWAY + ToText(cid)).Some? ==> m == net.fetchJson(IPFS_GATEWAY + ToText(cid)).value
  {
    net.fetchJson(IPFS_GATEWAY + ToText(cid)).GetOr(EMPTY_METADATA)
  }

  /** The cover image: the gateway followed by `imageCid` when that is a non-empty
      string, the default image otherwise. */
  function ImageUri(m: Metadata): (uri: string)
    ensures m.imageCid.Some? && m.imageCid.value != "" ==>
              |uri| > |IPFS_GATEWAY| && uri[..|IPFS_GATEWAY|] == IPFS_GATEWAY && uri[|IPFS_GATEWAY|..] == m.imageCid.value
    ensures m.imageCid.None? || m.imageCid.value == "" ==> uri == DEFAULT_IMAGE
  {
    match m.imageCid
    case Some(c) => if c != "" then IPFS_GATEWAY + c else DEFAULT_IMAGE
    case None => DEFAULT_IMAGE
  }

  /** `Promise.all(xs.map(read))`: every read succeeds and the answers keep the order
      of `xs`, or the first rejection rejects the whole batch. */
  function ReadAll<A, B>(xs: seq<A>, read: A -> Option<B>): (r: Option<seq<B>>)
    ensures r.Some? <==> forall i :: 0 <= i < |xs| ==> read(xs[i]).Some?
    ensures r.Some? ==> |r.value| == |xs| && forall i :: 0 <= i < |xs| ==> r.value[i] == read(xs[i]).value
  {
    if xs == [] then Some([])
    else
      match read(xs[0])
      case None => None
      case Some(y) =>
        match ReadAll(xs[1..], read)
        case None => None
        case Some(ys) =>
          assert forall i :: 1 <= i < |xs| ==> xs[i] == xs[1..][i - 1];
          Some([y] + ys)
  }
}
