/** `parse_search_results`: turns a decoded search answer into priced items.
    Candidates come from the first of three tiers that yields any: a list under
    a top-level key, a list one level under `data`, or a depth-first scan for
    mappings that look like products. Each candidate is then normalised, and
    the ones without a usable price are dropped. */
module Extract {
  import opened Wrappers
  import opened Json
  import opened PyText
  import opened Seqs

  /** Top-level keys probed, in order, for the product list. */
  const TopKeys: seq<string> := ["data", "items", "products", "subjects"]
  /** Keys probed, in order, inside a `data` mapping. */
  const NestedKeys: seq<string> := ["products", "subjects", "items"]

  const UrlPrefix: string := "https://www.wildberries.ru/catalog/"
  const UrlSuffix: string := "/detail.aspx"

  /** One extracted product. The price is kept in kopecks: the source stores
      `kopecks / 100` roubles. `name` is whatever JSON value the name
      fallback chain selected. */
  datatype PricedItem = PricedItem(id: string, name: Json, kopecks: int, url: Option<string>)

  // ---------------------------------------------------------------------------
  // Tiers one and two: a list stored under a known key

  /** The list under the first key of `keys` whose value is a list. A key
      whose list is empty still stops the search. */
  function FirstList(d: Json, keys: seq<string>): (r: Option<seq<Json>>)
    requires d.Obj?
    ensures r.Some? ==> exists i :: 0 <= i < |keys| && ListAt(d, keys[i]) == r
                                    && forall k :: 0 <= k < i ==> ListAt(d, keys[k]).None?
    ensures r.None? <==> forall i :: 0 <= i < |keys| ==> ListAt(d, keys[i]).None?
  {
    if keys == [] then None
    else if ListAt(d, keys[0]).Some? then ListAt(d, keys[0])
    else
      var r := FirstList(d, keys[1..]);
      FirstListSkips(d, keys, r);
      r
  }

  /** What the first key holding a list means for `keys[1..]` carries over to
      `keys` when `keys[0]` holds none. */
  lemma FirstListSkips(d: Json, keys: seq<string>, r: Option<seq<Json>>)
    requires d.Obj? && keys != [] && ListAt(d, keys[0]).None?
    requires r.Some? ==> exists j :: 0 <= j < |keys[1..]| && ListAt(d, keys[1..][j]) == r
                                     && forall k :: 0 <= k < j ==> ListAt(d, keys[1..][k]).None?
    requires r.None? <==> forall j :: 0 <= j < |keys[1..]| ==> ListAt(d, keys[1..][j]).None?
    ensures r.Some? ==> exists i :: 0 <= i < |keys| && ListAt(d, keys[i]) == r
                                    && forall k :: 0 <= k < i ==> ListAt(d, keys[k]).None?
    ensures r.None? <==> forall i :: 0 <= i < |keys| ==> ListAt(d, keys[i]).None?
  {
    assert forall i :: 1 <= i < |keys| ==> keys[1..][i - 1] == keys[i];
    if r.Some? {
      var j :| 0 <= j < |keys[1..]| && ListAt(d, keys[1..][j]) == r
               && forall k :: 0 <= k < j ==> ListAt(d, keys[1..][k]).None?;
      assert forall k :: 0 <= k < j + 1 ==> ListAt(d, keys[k]).None? by {
        forall k | 0 <= k < j + 1 ensures ListAt(d, keys[k]).None? {
          if k > 0 { assert keys[1..][k - 1] == keys[k]; }
        }
      }
      assert ListAt(d, keys[j + 1]) == r;
    }
  }

  /** The first key holding a list decides the tier. */
  lemma {:induction false} FirstListAt(d: Json, keys: seq<string>, i: nat)
    requires d.Obj? && i < |keys| && ListAt(d, keys[i]).Some?
    requires forall k :: 0 <= k < i ==> ListAt(d, keys[k]).None?
    ensures FirstList(d, keys) == ListAt(d, keys[i])
  {
    if i > 0 {
      assert keys[1..][i - 1] == keys[i];
      forall k | 0 <= k < i - 1
        ensures ListAt(d, keys[1..][k]).None?
      {
        assert keys[1..][k] == keys[k + 1];
      }
      FirstListAt(d, keys[1..], i - 1);
    }
  }

  /** A tier finds nothing: every non-empty list under `keys` comes after
      another list under an earlier key. */
  ghost predicate TierEmpty(d: Json, keys: seq<string>)
    requires d.Obj?
  {
    forall i :: 0 <= i < |keys| && ListAt(d, keys[i]).Some? && ListAt(d, keys[i]).value != [] ==>
      exists k :: 0 <= k < i && ListAt(d, keys[k]).Some?
  }

  /** The first list found, when non-empty, makes the tier non-empty. */
  lemma FirstFoundNotEmpty(d: Json, keys: seq<string>, i: nat)
    requires d.Obj? && i < |keys|
    requires ListAt(d, keys[i]).Some? && ListAt(d, keys[i]).value != []
    requires forall k :: 0 <= k < i ==> ListAt(d, keys[k]).None?
    ensures !TierEmpty(d, keys)
  {
  }

  /** A first list that is empty stops the tier with nothing. */
  lemma FirstEmptyStops(d: Json, keys: seq<string>, i: nat)
    requires d.Obj? && i < |keys|
    requires ListAt(d, keys[i]) == Some([])
    requires forall k :: 0 <= k < i ==> ListAt(d, keys[k]).None?
    ensures TierEmpty(d, keys)
  {
    forall j | 0 <= j < |keys| && ListAt(d, keys[j]).Some? && ListAt(d, keys[j]).value != []
      ensures exists k :: 0 <= k < j && ListAt(d, keys[k]).Some?
    {
      assert i < j;
    }
  }

  lemma TierEmptyIff(d: Json, keys: seq<string>)
    requires d.Obj?
    ensures TierEmpty(d, keys) <==> FirstList(d, keys).GetOr([]) == []
  {
    var r := FirstList(d, keys);
    if r.Some? {
      var i :| 0 <= i < |keys| && ListAt(d, keys[i]) == r
               && forall k :: 0 <= k < i ==> ListAt(d, keys[k]).None?;
      if r.value == [] {
        FirstEmptyStops(d, keys, i);
      } else {
        FirstFoundNotEmpty(d, keys, i);
      }
    }
  }

  /** The product list the first two tiers settle on; empty when they find
      nothing. */
  function TieredList(data: Json): (r: seq<Json>)
    ensures !data.Obj? ==> r == []
    ensures r != [] ==>
              (data.Obj? &&
               ((exists i :: 0 <= i < |TopKeys| && ListAt(data, TopKeys[i]) == Some(r)
                             && forall k :: 0 <= k < i ==> ListAt(data, TopKeys[k]).None?)
                || (FirstList(data, TopKeys).GetOr([]) == [] && Get(data, "data").Obj? &&
                    exists i :: 0 <= i < |NestedKeys| && ListAt(Get(data, "data"), NestedKeys[i]) == Some(r)
                                && forall k :: 0 <= k < i ==> ListAt(Get(data, "data"), NestedKeys[k]).None?)))
  {
    var top := if data.Obj? then FirstList(data, TopKeys).GetOr([]) else [];
    if top == [] && data.Obj? && Get(data, "data").Obj? then
      FirstList(Get(data, "data"), NestedKeys).GetOr(top)
    else top
  }

  // ---------------------------------------------------------------------------
  // Tier three: the depth-first scan

  /** A mapping with an `id` and at least one price-like key. */
  predicate IsMatch(j: Json) {
    j.Obj? && HasKey(j.fields, "id")
    && (HasKey(j.fields, "salePriceU") || HasKey(j.fields, "priceU") || HasKey(j.fields, "price"))
  }

  /** The scan `collect`: matching mappings in pre-order; the scan goes on
      into a matching mapping's values. */
  function Scan(j: Json): (r: seq<Json>)
    ensures forall x :: x in r ==> IsMatch(x)
    ensures IsMatch(j) ==> r != [] && r[0] == j
    decreases j
  {
    match j
    case Obj(fs) => (if IsMatch(j) then [j] else []) + ScanFields(fs)
    case Arr(xs) => ScanList(xs)
    case _ => []
  }

  function ScanList(xs: seq<Json>): (r: seq<Json>)
    ensures forall x :: x in r ==> IsMatch(x)
    decreases xs
  {
    if xs == [] then [] else Scan(xs[0]) + ScanList(xs[1..])
  }

  function ScanFields(fs: seq<Field>): (r: seq<Json>)
    ensures forall x :: x in r ==> IsMatch(x)
    decreases fs
  {
    if fs == [] then [] else Scan(fs[0].value) + ScanFields(fs[1..])
  }

  /** Reference order: every value of the tree, each before its children,
      children in document order. */
  function Subterms(j: Json): (r: seq<Json>)
    ensures r != [] && r[0] == j
    decreases j
  {
    [j] + match j
          case Obj(fs) => SubtermsFields(fs)
          case Arr(xs) => SubtermsList(xs)
          case _ => []
  }

  function SubtermsList(xs: seq<Json>): seq<Json>
    decreases xs
  {
    if xs == [] then [] else Subterms(xs[0]) + SubtermsList(xs[1..])
  }

  function SubtermsFields(fs: seq<Field>): seq<Json>
    decreases fs
  {
    if fs == [] then [] else Subterms(fs[0].value) + SubtermsFields(fs[1..])
  }

  /** The values of `xs` that match, in order. */
  function Matches(xs: seq<Json>): (r: seq<Json>)
    ensures |r| <= |xs|
  {
    if xs == [] then [] else (if IsMatch(xs[0]) then [xs[0]] else []) + Matches(xs[1..])
  }

  lemma {:induction false} MatchesAppend(a: seq<Json>, b: seq<Json>)
    ensures Matches(a + b) == Matches(a) + Matches(b)
  {
    if a != [] {
      assert (a + b)[0] == a[0];
      assert (a + b)[1..] == a[1..] + b;
      MatchesAppend(a[1..], b);
    } else {
      assert a + b == b;
    }
  }

  lemma {:induction false} MatchesMember(xs: seq<Json>, x: Json)
    ensures x in Matches(xs) <==> x in xs && IsMatch(x)
  {
    if xs != [] {
      MatchesMember(xs[1..], x);
      assert xs == [xs[0]] + xs[1..];
    }
  }

  /** The scan is exactly the pre-order walk filtered by `IsMatch`. */
  lemma {:induction false} ScanIsPreorderFilter(j: Json)
    ensures Scan(j) == Matches(Subterms(j))
    decreases j
  {
    match j
    case Obj(fs) =>
      ScanFieldsIsPreorderFilter(fs);
      MatchesAppend([j], SubtermsFields(fs));
    case Arr(xs) =>
      ScanListIsPreorderFilter(xs);
      MatchesAppend([j], SubtermsList(xs));
    case _ =>
  }

  lemma {:induction false} ScanListIsPreorderFilter(xs: seq<Json>)
    ensures ScanList(xs) == Matches(SubtermsList(xs))
    decreases xs
  {
    if xs != [] {
      ScanIsPreorderFilter(xs[0]);
      ScanListIsPreorderFilter(xs[1..]);
      MatchesAppend(Subterms(xs[0]), SubtermsList(xs[1..]));
    }
  }

  lemma {:induction false} ScanFieldsIsPreorderFilter(fs: seq<Field>)
    ensures ScanFields(fs) == Matches(SubtermsFields(fs))
    decreases fs
  {
    if fs != [] {
      ScanIsPreorderFilter(fs[0].value);
      ScanFieldsIsPreorderFilter(fs[1..]);
      MatchesAppend(Subterms(fs[0].value), SubtermsFields(fs[1..]));
    }
  }

  /** The scan collects exactly the matching mappings found anywhere in the
      tree, the root included. */
  lemma ScanCollectsExactly(j: Json, x: Json)
    ensures x in Scan(j) <==> IsMatch(x) && x in Subterms(j)
  {
    ScanIsPreorderFilter(j);
    MatchesMember(Subterms(j), x);
  }

  /** Every value is collected exactly when it matches and occurs in `j`. */
  lemma ScanCollectsAll(j: Json)
    ensures forall x :: x in Scan(j) <==> IsMatch(x) && x in Subterms(j)
  {
    forall x ensures x in Scan(j) <==> IsMatch(x) && x in Subterms(j) {
      ScanCollectsExactly(j, x);
    }
  }

  /** A matching mapping nested inside another matching mapping is collected
      too, after its parent. */
  lemma NestedMatchCollected(fs: seq<Field>, i: nat)
    requires IsMatch(Obj(fs))
    requires i < |fs| && IsMatch(fs[i].value)
    ensures Scan(Obj(fs))[0] == Obj(fs)
    ensures fs[i].value in Scan(Obj(fs))[1..]
  {
    SubtermsFieldsContains(fs, i);
    ScanFieldsIsPreorderFilter(fs);
    MatchesMember(SubtermsFields(fs), fs[i].value);
    assert Scan(Obj(fs))[1..] == ScanFields(fs);
  }

  lemma {:induction false} SubtermsFieldsContains(fs: seq<Field>, i: nat)
    requires i < |fs|
    ensures fs[i].value in SubtermsFields(fs)
  {
    if i == 0 {
      assert Subterms(fs[0].value)[0] == fs[0].value;
    } else {
      SubtermsFieldsContains(fs[1..], i - 1);
    }
  }

  // ---------------------------------------------------------------------------
  // Choosing the candidates

  /** The candidate list: the tiered list, or the scan when the first two
      tiers found nothing. */
  function Candidates(data: Json): (r: seq<Json>)
    ensures TieredList(data) != [] ==> r == TieredList(data)
    ensures TieredList(data) == [] ==> forall x :: x in r <==> IsMatch(x) && x in Subterms(data)
  {
    ScanCollectsAll(data);
    var tiered := TieredList(data);
    if tiered == [] then Scan(data) else tiered
  }

  /** Tier one: the first top-level key holding a list wins when that list is
      non-empty. */
  lemma TopTierWins(data: Json, i: nat)
    requires data.Obj? && i < |TopKeys|
    requires ListAt(data, TopKeys[i]).Some? && ListAt(data, TopKeys[i]).value != []
    requires forall k :: 0 <= k < i ==> ListAt(data, TopKeys[k]).None?
    ensures Candidates(data) == ListAt(data, TopKeys[i]).value
  {
    FirstListAt(data, TopKeys, i);
    assert TieredList(data) == ListAt(data, TopKeys[i]).value;
  }

  lemma NestedListDecides(data: Json, i: nat)
    requires data.Obj? && FirstList(data, TopKeys).GetOr([]) == []
    requires Get(data, "data").Obj? && i < |NestedKeys|
    requires ListAt(Get(data, "data"), NestedKeys[i]).Some?
    requires ListAt(Get(data, "data"), NestedKeys[i]).value != []
    requires forall k :: 0 <= k < i ==> ListAt(Get(data, "data"), NestedKeys[k]).None?
    ensures Candidates(data) == ListAt(Get(data, "data"), NestedKeys[i]).value
  {
    var d := Get(data, "data");
    FirstListAt(d, NestedKeys, i);
    assert TieredList(data) == ListAt(d, NestedKeys[i]).value;
  }

  /** Tier two runs only when tier one found nothing, and then the first of
      `products`, `subjects`, `items` under `data` holding a non-empty list
      wins. */
  lemma NestedTierWins(data: Json, i: nat)
    requires data.Obj? && TierEmpty(data, TopKeys)
    requires Get(data, "data").Obj? && i < |NestedKeys|
    requires ListAt(Get(data, "data"), NestedKeys[i]).Some?
    requires ListAt(Get(data, "data"), NestedKeys[i]).value != []
    requires forall k :: 0 <= k < i ==> ListAt(Get(data, "data"), NestedKeys[k]).None?
    ensures Candidates(data) == ListAt(Get(data, "data"), NestedKeys[i]).value
  {
    TierEmptyIff(data, TopKeys);
    NestedListDecides(data, i);
  }

  /** Both tiers come up empty exactly when neither `FirstList` finds a
      non-empty list. */
  lemma TieredListEmpty(data: Json)
    ensures TieredList(data) == [] <==>
              (!data.Obj?
               || (FirstList(data, TopKeys).GetOr([]) == []
                   && (!Get(data, "data").Obj? || FirstList(Get(data, "data"), NestedKeys).GetOr([]) == [])))
  {
  }

  /** The scan runs exactly when both tiers find nothing; a list that is
      found but empty counts as nothing. */
  lemma ScanIffTiersEmpty(data: Json)
    ensures TieredList(data) == [] <==>
              (!data.Obj?
               || (TierEmpty(data, TopKeys)
                   && (!Get(data, "data").Obj? || TierEmpty(Get(data, "data"), NestedKeys))))
    ensures TieredList(data) == [] ==> Candidates(data) == Scan(data)
    ensures TieredList(data) != [] ==> Candidates(data) == TieredList(data)
  {
    TieredListEmpty(data);
    if data.Obj? {
      TierEmptyIff(data, TopKeys);
      if Get(data, "data").Obj? {
        TierEmptyIff(Get(data, "data"), NestedKeys);
      }
    }
  }

  // ---------------------------------------------------------------------------
  // Field fallbacks

  /** Python's `a or b or c`: the first truthy operand, else the last one. */
  function OrChain(vs: seq<Json>): (r: Json)
    requires vs != []
    ensures (exists i :: 0 <= i < |vs| && Truthy(vs[i])) ==>
              exists i :: 0 <= i < |vs| && r == vs[i] && Truthy(r)
                          && forall k :: 0 <= k < i ==> !Truthy(vs[k])
    ensures (forall i :: 0 <= i < |vs| ==> !Truthy(vs[i])) ==> r == vs[|vs| - 1]
  {
    if |vs| == 1 || Truthy(vs[0]) then vs[0]
    else
      var r := OrChain(vs[1..]);
      assert forall i :: 1 <= i < |vs| ==> vs[1..][i - 1] == vs[i];
      r
  }

  /** `p.get('id') or p.get('nm_id') or p.get('sku')` */
  function Pid(p: Json): Json
    requires p.Obj?
  {
    OrChain([Get(p, "id"), Get(p, "nm_id"), Get(p, "sku")])
  }

  /** `p.get('name') or p.get('title') or p.get('brand') or ''` */
  function Name(p: Json): Json
    requires p.Obj?
  {
    OrChain([Get(p, "name"), Get(p, "title"), Get(p, "brand"), Str("")])
  }

  /** `p.get('salePriceU') or p.get('priceU') or p.get('price')` */
  function RawPrice(p: Json): Json
    requires p.Obj?
  {
    OrChain([Get(p, "salePriceU"), Get(p, "priceU"), Get(p, "price")])
  }

  /** The name is the first truthy of `name`, `title`, `brand`, and the empty
      string when none is. */
  lemma NameFallback(p: Json)
    requires p.Obj?
    ensures Truthy(Get(p, "name")) ==> Name(p) == Get(p, "name")
    ensures !Truthy(Get(p, "name")) && Truthy(Get(p, "title")) ==> Name(p) == Get(p, "title")
    ensures (!Truthy(Get(p, "name")) && !Truthy(Get(p, "title")) && Truthy(Get(p, "brand")))
              ==> Name(p) == Get(p, "brand")
    ensures (!Truthy(Get(p, "name")) && !Truthy(Get(p, "title")) && !Truthy(Get(p, "brand")))
              ==> Name(p) == Str("")
    ensures Truthy(Name(p)) || Name(p) == Str("")
  {
    var vs := [Get(p, "name"), Get(p, "title"), Get(p, "brand"), Str("")];
    assert vs[1..] == [vs[1], vs[2], vs[3]];
    assert vs[2..] == [vs[2], vs[3]];
    assert vs[1..][1..] == vs[2..];
    assert vs[2..][1..] == [vs[3]];
  }

  /** The raw price skips falsy values, except that the last key's value is
      taken whatever it is; a falsy price-like value elsewhere is passed over. */
  lemma RawPriceFallback(p: Json)
    requires p.Obj?
    ensures Truthy(Get(p, "salePriceU")) ==> RawPrice(p) == Get(p, "salePriceU")
    ensures !Truthy(Get(p, "salePriceU")) && Truthy(Get(p, "priceU")) ==> RawPrice(p) == Get(p, "priceU")
    ensures !Truthy(Get(p, "salePriceU")) && !Truthy(Get(p, "priceU")) ==> RawPrice(p) == Get(p, "price")
  {
    var vs := [Get(p, "salePriceU"), Get(p, "priceU"), Get(p, "price")];
    assert vs[1..] == [vs[1], vs[2]];
    assert vs[1..][1..] == [vs[2]];
  }

  /** The identifier is the first truthy of `id`, `nm_id`, `sku`, otherwise the
      `sku` value (None when absent). */
  lemma PidFallback(p: Json)
    requires p.Obj?
    ensures Truthy(Get(p, "id")) ==> Pid(p) == Get(p, "id")
    ensures !Truthy(Get(p, "id")) && Truthy(Get(p, "nm_id")) ==> Pid(p) == Get(p, "nm_id")
    ensures !Truthy(Get(p, "id")) && !Truthy(Get(p, "nm_id")) ==> Pid(p) == Get(p, "sku")
  {
    var vs := [Get(p, "id"), Get(p, "nm_id"), Get(p, "sku")];
    assert vs[1..] == [vs[1], vs[2]];
    assert vs[1..][1..] == [vs[2]];
  }

  // ---------------------------------------------------------------------------
  // Price normalisation and items

  /** The raw price in kopecks, when it is usable: an integer (a boolean is an
      integer in Python), a float truncated by `int()`, or a string of digits.
      Anything else drops the candidate. */
  function Kopecks(v: Json): Option<int> {
    match v
    case Int(i) => Some(i)
    case Bool(b) => Some(if b then 1 else 0)
    case Float(x) => Some(TruncReal(x))
    case Str(s) => if IsDigitString(s) then Some(DigitsValue(s)) else None
    case _ => None
  }

  /** A price written as a digit string reads as the number it spells, and so
      does every integer. */
  lemma KopecksReadsNumbers(n: nat, i: int)
    ensures Kopecks(Str(NatText(n))) == Some(n)
    ensures Kopecks(Int(i)) == Some(i)
  {
    DigitsValueNatText(n);
  }

  /** A float price is truncated toward zero, for both signs, and a boolean
      counts as the integer it is. */
  lemma KopecksReadsFloatsAndBools(x: real, b: bool)
    ensures Kopecks(Float(x)).Some?
    ensures x >= 0.0 ==> var k := Kopecks(Float(x)).value;
                         0 <= k && k as real <= x < k as real + 1.0
    ensures x < 0.0 ==> var k := Kopecks(Float(x)).value;
                        k <= 0 && k as real - 1.0 < x <= k as real
    ensures Kopecks(Bool(b)) == Some(if b then 1 else 0)
  {
  }

  /** Every digit string is a price, and leading zeros do not change it. */
  lemma KopecksLeadingZero(s: string)
    requires IsDigitString(s)
    ensures Kopecks(Str(s)).Some?
    ensures Kopecks(Str("0" + s)) == Kopecks(Str(s))
  {
    DigitsValueLeadingZero(s);
    assert IsDigitString("0" + s) by {
      forall i | 0 <= i < |"0" + s| ensures IsDigit(("0" + s)[i]) {
        if i > 0 { assert ("0" + s)[i] == s[i - 1]; }
      }
    }
  }

  /** Values that are neither numbers nor digit strings are never prices. */
  lemma KopecksRejects(v: Json)
    ensures v.Null? || v.Obj? || v.Arr? ==> Kopecks(v).None?
    ensures v.Str? && Kopecks(v).Some? ==> v.s != [] && forall i :: 0 <= i < |v.s| ==> IsDigit(v.s[i])
    ensures v.Str? && (exists i :: 0 <= i < |v.s| && !IsDigit(v.s[i])) ==> Kopecks(v).None?
  {
  }

  /** One candidate as an item: None for a value that is not a mapping (the
      source's `.get` fails and the candidate is skipped) or has no usable
      price. */
  function ToItem(p: Json): (r: Option<PricedItem>)
    ensures r.Some? <==> p.Obj? && Kopecks(RawPrice(p)).Some?
    ensures r.Some? ==> r.value.id == PyStr(Pid(p)) && r.value.name == Name(p)
                        && Some(r.value.kopecks) == Kopecks(RawPrice(p))
    ensures r.Some? ==> (r.value.url.Some? <==> Truthy(Pid(p)))
    ensures r.Some? && r.value.url.Some? ==> r.value.url.value == UrlPrefix + r.value.id + UrlSuffix
  {
    if !p.Obj? then None
    else
      var pid := Pid(p);
      match Kopecks(RawPrice(p))
      case None => None
      case Some(k) =>
        Some(PricedItem(PyStr(pid), Name(p), k,
                        if Truthy(pid) then Some(UrlPrefix + PyStr(pid) + UrlSuffix) else None))
  }

  /** An emitted id is empty only when the selected identifier is the empty
      string, and then there is no url either. */
  lemma ItemIdEmptyOnlyWithoutUrl(p: Json)
    requires ToItem(p).Some?
    ensures ToItem(p).value.id == [] <==> Pid(p) == Str([])
    ensures ToItem(p).value.id == [] ==> ToItem(p).value.url.None?
  {
  }

  /** A candidate whose selected raw price is a mapping is always dropped, and
      the nested `sale`/`now` lookup is dead code: the raw price is None only
      when `price` is None as well, so never a mapping. */
  lemma MappingPriceDropped(p: Json)
    requires p.Obj?
    ensures RawPrice(p).Obj? ==> ToItem(p).None?
    ensures RawPrice(p).Null? ==> !(HasKey(p.fields, "price") && Get(p, "price").Obj?)
  {
    RawPriceFallback(p);
  }

  /** `parse_search_results`: the items of the candidates that are mappings
      with a usable price, and nothing else. */
  function ParseSearchResults(data: Json): (r: seq<PricedItem>)
    ensures |r| <= |Candidates(data)|
    ensures forall it :: it in r <==> exists c :: c in Candidates(data) && ToItem(c) == Some(it)
  {
    FilterMapMembers(ToItem, Candidates(data));
    FilterMap(ToItem, Candidates(data))
  }

  /** Every item comes from a candidate, every candidate that is a mapping
      with a usable price yields its item, and items keep candidate order. */
  lemma ParseKeepsCandidates(data: Json, it: PricedItem)
    ensures it in ParseSearchResults(data) <==> exists c :: c in Candidates(data) && ToItem(c) == Some(it)
    ensures forall i, j :: 0 <= i < j < |Kept(ToItem, Candidates(data), 0)| ==>
              Kept(ToItem, Candidates(data), 0)[i] < Kept(ToItem, Candidates(data), 0)[j]
    ensures forall i :: 0 <= i < |Kept(ToItem, Candidates(data), 0)| ==>
              var n := Kept(ToItem, Candidates(data), 0)[i];
              n < |Candidates(data)| && i < |ParseSearchResults(data)|
              && ToItem(Candidates(data)[n]) == Some(ParseSearchResults(data)[i])
    ensures forall n :: 0 <= n < |Candidates(data)| && n !in Kept(ToItem, Candidates(data), 0) ==>
              ToItem(Candidates(data)[n]).None?
  {
    FilterMapMember(ToItem, Candidates(data), it);
    FilterMapKeepsOrder(ToItem, Candidates(data));
  }

  /** Without any list under the known keys, every product-like mapping
      anywhere in the payload that carries a usable price reaches the
      output. */
  lemma FallbackRecoversNested(data: Json, x: Json)
    requires !data.Obj? || forall i :: 0 <= i < |TopKeys| ==> ListAt(data, TopKeys[i]).None?
    requires data.Obj? && Get(data, "data").Obj? ==>
               forall i :: 0 <= i < |NestedKeys| ==> ListAt(Get(data, "data"), NestedKeys[i]).None?
    requires x in Subterms(data) && IsMatch(x) && Kopecks(RawPrice(x)).Some?
    ensures ToItem(x).Some? && ToItem(x).value in ParseSearchResults(data)
  {
    assert TieredList(data) == [];
    ScanCollectsExactly(data, x);
    FilterMapMember(ToItem, Candidates(data), ToItem(x).value);
  }
}
