/** The viewer's rentals (src/pages/MyBooks/MyBooks.jsx): normalise the ids the ledger
    reports for the account, then read and merge each of them. */
module MyBooks {
  import opened Wrappers
  import opened JsValues
  import opened Chain

  /** The filter of the array-like branch: `typeof v === "bigint" || /^\d+$/.test(v)`;
      the regular expression sees `String(v)`. */
  function KeptAsId(v: RawValue): (kept: bool)
    ensures v.BigIntValue? ==> kept
    ensures v.OtherValue? ==> (kept <==> AllDigits(v.text))
    ensures kept && !(v.BigIntValue? && v.i < 0) ==> AllDigits(IdText(v))
  {
    v.BigIntValue? || AllDigits(v.text)
  }

  /** `v.toString()`. */
  function IdText(v: RawValue): (t: string)
    ensures v.BigIntValue? && v.i >= 0 ==> AllDigits(t) && DecimalValue(t) == v.i && (t[0] == '0' <==> v.i == 0)
    ensures v.BigIntValue? && v.i < 0 ==> |t| > 1 && t[0] == '-' && AllDigits(t[1..]) && DecimalValue(t[1..]) == -v.i
    ensures v.OtherValue? ==> t == v.text
  {
    match v
    case BigIntValue(i) => IntToDecimal(i)
    case OtherValue(t) => t
  }

  /** `Object.values(raw).filter(...).map(v => v.toString())`. */
  function KeepIds(values: seq<RawValue>): (ids: seq<string>)
    ensures |ids| <= |values|
    ensures forall s :: s in ids <==> exists v :: v in values && KeptAsId(v) && IdText(v) == s
    ensures (forall i :: 0 <= i < |values| ==> KeptAsId(values[i])) ==>
              |ids| == |values| && forall i :: 0 <= i < |values| ==> ids[i] == IdText(values[i])
  {
    if values == [] then []
    else
      var rest := KeepIds(values[1..]);
      assert forall v :: v in values <==> v == values[0] || v in values[1..];
      if KeptAsId(values[0]) then [IdText(values[0])] + rest else rest
  }

  /** The filter keeps order: filtering a concatenation concatenates the filtered parts. */
  lemma {:induction false} KeepIdsAppend(a: seq<RawValue>, b: seq<RawValue>)
    ensures KeepIds(a + b) == KeepIds(a) + KeepIds(b)
  {
    if a == [] {
      assert a + b == b;
    } else {
      assert (a + b)[0] == a[0];
      assert (a + b)[1..] == a[1..] + b;
      KeepIdsAppend(a[1..], b);
      var head := if KeptAsId(a[0]) then [IdText(a[0])] else [];
      assert KeepIds(a + b) == head + (KeepIds(a[1..]) + KeepIds(b));
      assert KeepIds(a) == head + KeepIds(a[1..]);
    }
  }

  /** Every kept id is decimal text: digits only, or a minus sign and digits for a
      negative bigint; a non-negative bigint's text reads back as its value. */
  lemma KeptIdsAreDecimal(values: seq<RawValue>)
    ensures forall s :: s in KeepIds(values) ==> AllDigits(s) || (s[0] == '-' && AllDigits(s[1..]))
    ensures forall i :: 0 <= i < |values| && values[i].BigIntValue? && values[i].i >= 0 ==>
              IdText(values[i]) in KeepIds(values) && DecimalValue(IdText(values[i])) == values[i].i
  {
  }

  /** The ids as strings: `Array.isArray(raw) ? raw.map(String) : ...`. */
  function NormaliseIds(raw: RentedBooks): (ids: seq<string>)
    ensures raw.ArrayResult? ==> |ids| == |raw.items|
    ensures raw.ObjectResult? ==> |ids| <= |raw.values|
  {
    match raw
    case ArrayResult(items) => seq(|items|, i requires 0 <= i < |items| => IntToDecimal(items[i]))
    case ObjectResult(values) => KeepIds(values)
  }

  /** Whichever shape the ledger answers in, every normalised id is decimal text: digits
      only, or a minus sign followed by digits. */
  lemma NormalisedIdsAreDecimal(raw: RentedBooks)
    ensures forall s :: s in NormaliseIds(raw) ==> AllDigits(s) || (|s| > 1 && s[0] == '-' && AllDigits(s[1..]))
  {
    match raw
    case ArrayResult(items) =>
      forall s | s in NormaliseIds(raw)
        ensures AllDigits(s) || (|s| > 1 && s[0] == '-' && AllDigits(s[1..]))
      {
        var i :| 0 <= i < |items| && NormaliseIds(raw)[i] == s;
        assert s == IntToDecimal(items[i]);
      }
    case ObjectResult(values) =>
      KeptIdsAreDecimal(values);
  }

  /** A real array keeps its length and order, element i becoming the decimal text of
      item i. */
  lemma ArrayIdsElementwise(items: seq<int>)
    ensures |NormaliseIds(ArrayResult(items))| == |items|
    ensures forall i :: 0 <= i < |items| && items[i] >= 0 ==>
              AllDigits(NormaliseIds(ArrayResult(items))[i]) && DecimalValue(NormaliseIds(ArrayResult(items))[i]) == items[i]
  {
  }

  /** One card of the viewer's library. */
  datatype OwnedBook = OwnedBook(id: string, title: string, author: string,
                                 dailyRentWei: JsValue, isAvailable: JsValue, imageUri: string)

  /** `b.name ?? b[i]`. */
  function NamedOr(b: CallResult, name: string, i: nat): (v: JsValue)
    ensures !(Get(b, name).Undefined? || Get(b, name).Null?) ==> v == Get(b, name)
    ensures Get(b, name).Undefined? || Get(b, name).Null? ==> v == At(b, i)
  {
    Coalesce(Get(b, name), At(b, i))
  }

  /** The per-id step: read the record, fetch its metadata, merge with the page's own
      defaults. None when the record read rejects. */
  function LoadOwned(id: string, net: Network): (r: Option<OwnedBook>)
    ensures r.Some? <==> net.bookDetails(id).Some?
    ensures r.Some? ==> r.value.id == id
  {
    match net.bookDetails(id)
    case None => None
    case Some(b) =>
      var meta := MetadataFor(net, NamedOr(b, "metadataCid", 4));
      Some(OwnedBook(id, meta.title.GetOr("Unknown Title"), meta.author.GetOr("Unknown Author"),
                     NamedOr(b, "dailyRentWei", 0), NamedOr(b, "isAvailable", 1), ImageUri(meta)))
  }

  /** The `try` block of `loadMyBooks`: None when the id list or any record read rejects. */
  function LoadLibrary(account: string, net: Network): (r: Option<seq<OwnedBook>>)
    ensures net.rentedBooks(account).None? ==> r.None?
    ensures r.Some? ==> net.rentedBooks(account).Some?
                        && |r.value| == |NormaliseIds(net.rentedBooks(account).value)|
                        && forall i :: 0 <= i < |r.value| ==>
                             LoadOwned(NormaliseIds(net.rentedBooks(account).value)[i], net) == Some(r.value[i])
  {
    match net.rentedBooks(account)
    case None => None
    case Some(raw) => ReadAll(NormaliseIds(raw), id => LoadOwned(id, net))
  }

  /** One card per normalised id, in the same order, card i carrying id i; a single
      rejected record read rejects the whole list. */
  lemma LibraryFollowsIds(account: string, net: Network)
    requires net.rentedBooks(account).Some?
    ensures var ids := NormaliseIds(net.rentedBooks(account).value);
            && (LoadLibrary(account, net).Some? <==> forall i :: 0 <= i < |ids| ==> net.bookDetails(ids[i]).Some?)
            && (LoadLibrary(account, net).Some? ==>
                  |LoadLibrary(account, net).value| == |ids|
                  && forall i :: 0 <= i < |ids| ==> LoadLibrary(account, net).value[i].id == ids[i])
  {
    var ids := NormaliseIds(net.rentedBooks(account).value);
    var f := id => LoadOwned(id, net);
    assert forall i :: 0 <= i < |ids| ==> (f(ids[i]).Some? <==> net.bookDetails(ids[i]).Some?);
    if LoadLibrary(account, net).Some? {
      var list := LoadLibrary(account, net).value;
      forall i | 0 <= i < |ids| ensures list[i].id == ids[i] {
        assert list[i] == f(ids[i]).value;
      }
    }
  }

  /** A card's contents: "Unknown Title"/"Unknown Author" and the default image when the
      document lacks them (all three when the fetch fails); the metadata id, rent and
      availability come from the named field, or from positions 4, 0 and 1 when that is
      null or undefined. */
  lemma OwnedBookContents(id: string, net: Network)
    requires net.bookDetails(id).Some?
    ensures var b := net.bookDetails(id).value;
            var cid := if Get(b, "metadataCid").Undefined? || Get(b, "metadataCid").Null? then At(b, 4) else Get(b, "metadataCid");
            var meta := MetadataFor(net, cid);
            var card := LoadOwned(id, net).value;
            && card.title == (if meta.title.Some? then meta.title.value else "Unknown Title")
            && card.author == (if meta.author.Some? then meta.author.value else "Unknown Author")
            && card.imageUri == ImageUri(meta)
            && card.dailyRentWei == (if Get(b, "dailyRentWei").Undefined? || Get(b, "dailyRentWei").Null? then At(b, 0) else Get(b, "dailyRentWei"))
            && card.isAvailable == (if Get(b, "isAvailable").Undefined? || Get(b, "isAvailable").Null? then At(b, 1) else Get(b, "isAvailable"))
            && (net.fetchJson(IPFS_GATEWAY + ToText(cid)).None? ==>
                  card.title == "Unknown Title" && card.author == "Unknown Author" && card.imageUri == DEFAULT_IMAGE)
  {
  }

  /** Unlike the single-book view, this page agrees with the ABI's tuple: for a record
      shaped as the ABI declares, by name or by position alone, it reads the ledger's
      rent, availability and metadata id. */
  lemma AgreesWithAbi(id: string, net: Network, rent: nat, available: bool, renter: string, deposit: nat, cid: string)
    requires net.bookDetails(id) == Some(AbiBookDetails(rent, available, renter, deposit, cid))
             || net.bookDetails(id) == Some(CallResult(AbiBookDetails(rent, available, renter, deposit, cid).byIndex, map[]))
    ensures var card := LoadOwned(id, net).value;
            && card.dailyRentWei == BigInt(rent) && card.isAvailable == Bool(available)
            && card.imageUri == ImageUri(MetadataFor(net, Str(cid)))
  {
  }

  /** The page's state. */
  class MyBooksPage {
    var account: Option<string>
    var books: seq<OwnedBook>
    var loading: bool

    constructor ()
      ensures account == None && books == [] && loading
    {
      account := None;
      books := [];
      loading := true;
    }

    /** The wallet effect: remember the first account. */
    method Connect(addr: Option<string>)
      modifies this`account
      ensures account == addr
    {
      account := addr;
    }

    /** `loadMyBooks`: nothing happens without an account; otherwise the list replaces
        the old one, or on a rejection the old one stays; loading ends either way. */
    method LoadMyBooks(net: Network)
      modifies this`books, this`loading
      ensures account.None? || account.value == "" ==> books == old(books) && loading == old(loading)
      ensures account.Some? && account.value != "" ==> !loading
      ensures account.Some? && account.value != "" && LoadLibrary(account.value, net).Some? ==>
                books == LoadLibrary(account.value, net).value
      ensures account.Some? && account.value != "" && LoadLibrary(account.value, net).None? ==>
                books == old(books)
    {
      if account.None? || account.value == "" {
        return;
      }
      loading := true;
      var result := LoadLibrary(account.value, net);
      if result.Some? {
        books := result.value;
      }
      loading := false;
    }
  }
}
