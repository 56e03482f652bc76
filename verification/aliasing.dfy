/** `parse_search_results` as written, object identity included. When tier one
    or tier two stops at an EMPTY list, `products` is that very list object of
    the payload, and the fallback scan appends into it. Should the scan reach
    that list later, it walks the elements appended so far, and the ones it
    appends while doing so. The walk carries a fuel bound; `None` means it did
    not finish within the bound. */
module Aliasing {
  import opened Wrappers
  import opened Json
  import opened PyText
  import opened Seqs
  import opened Extract

  /** A node of the payload and where it sits: the field or element indices
      leading to it from the root. Equal paths mean the same Python object. */
  datatype Visit = Visit(path: seq<nat>, node: Json)

  function Nodes(vs: seq<Visit>): (r: seq<Json>)
    ensures |r| == |vs| && forall i :: 0 <= i < |vs| ==> r[i] == vs[i].node
  {
    if vs == [] then [] else [vs[0].node] + Nodes(vs[1..])
  }

  /** Position of the field that `d[key]` reads. */
  function KeyIndex(fs: seq<Field>, key: string): (r: nat)
    requires HasKey(fs, key)
    ensures r < |fs| && fs[r].key == key
  {
    if fs[0].key == key then 0
    else
      assert HasKey(fs[1..], key) by {
        var i :| 0 <= i < |fs| && fs[i].key == key;
        assert fs[1..][i - 1].key == key;
      }
      1 + KeyIndex(fs[1..], key)
  }

  /** The first key of `keys` under which `d` holds a list. */
  function FirstListKey(d: Json, keys: seq<string>): (r: Option<string>)
    requires d.Obj?
    ensures r.Some? ==> ListAt(d, r.value).Some? && FirstList(d, keys) == ListAt(d, r.value)
    ensures r.None? ==> FirstList(d, keys).None?
  {
    if keys == [] then None
    else if ListAt(d, keys[0]).Some? then Some(keys[0])
    else FirstListKey(d, keys[1..])
  }

  /** Where the list bound to `products` sits when the first two tiers find
      nothing: the empty list tier two stopped at, else the one tier one
      stopped at, else nowhere (a fresh list). */
  function AliasPath(data: Json): Option<seq<nat>> {
    if !data.Obj? || FirstList(data, TopKeys).GetOr([]) != [] then None
    else if Get(data, "data").Obj? && FirstListKey(Get(data, "data"), NestedKeys).Some? then
      var d := Get(data, "data");
      Some([KeyIndex(data.fields, "data"), KeyIndex(d.fields, FirstListKey(d, NestedKeys).value)])
    else
      match FirstListKey(data, TopKeys)
      case Some(key) => Some([KeyIndex(data.fields, key)])
      case None => None
  }

  /** `collect(v)` with `products` holding `acc`; the list at path `alias`
      is `products` itself. */
  function WalkNode(fuel: nat, alias: Option<seq<nat>>, v: Visit, acc: seq<Visit>): Option<seq<Visit>>
    decreases fuel
  {
    if fuel == 0 then None
    else
      match v.node
      case Obj(fs) => WalkFields(fuel - 1, alias, v.path, fs, 0, if IsMatch(v.node) then acc + [v] else acc)
      case Arr(xs) =>
        if alias == Some(v.path) then WalkLive(fuel - 1, alias, 0, acc)
        else WalkItems(fuel - 1, alias, v.path, xs, 0, acc)
      case _ => Some(acc)
  }

  /** `for v in d.values(): collect(v)` from field `i` on. */
  function WalkFields(fuel: nat, alias: Option<seq<nat>>, path: seq<nat>, fs: seq<Field>, i: nat,
                      acc: seq<Visit>): Option<seq<Visit>>
    decreases fuel
  {
    if fuel == 0 then None
    else if i >= |fs| then Some(acc)
    else
      match WalkNode(fuel - 1, alias, Visit(path + [i], fs[i].value), acc)
      case None => None
      case Some(acc') => WalkFields(fuel - 1, alias, path, fs, i + 1, acc')
  }

  /** `for it in d: collect(it)` over a list that is not `products`. */
  function WalkItems(fuel: nat, alias: Option<seq<nat>>, path: seq<nat>, xs: seq<Json>, i: nat,
                     acc: seq<Visit>): Option<seq<Visit>>
    decreases fuel
  {
    if fuel == 0 then None
    else if i >= |xs| then Some(acc)
    else
      match WalkNode(fuel - 1, alias, Visit(path + [i], xs[i]), acc)
      case None => None
      case Some(acc') => WalkItems(fuel - 1, alias, path, xs, i + 1, acc')
  }

  /** `for it in d: collect(it)` over `products` itself: Python's list
      iterator re-reads the length, so elements appended meanwhile are
      walked as well. */
  function WalkLive(fuel: nat, alias: Option<seq<nat>>, i: nat, acc: seq<Visit>): Option<seq<Visit>>
    decreases fuel
  {
    if fuel == 0 then None
    else if i >= |acc| then Some(acc)
    else
      match WalkNode(fuel - 1, alias, acc[i], acc)
      case None => None
      case Some(acc') => WalkLive(fuel - 1, alias, i + 1, acc')
  }

  /** The source's extraction, within `fuel` steps of the scan. When a tier
      finds products, or no empty payload list is bound to `products`, it
      agrees with the corrected extraction whenever it finishes. */
  function ParseAsWritten(fuel: nat, data: Json): (r: Option<seq<PricedItem>>)
    ensures TieredList(data) != [] ==> r == Some(ParseSearchResults(data))
    ensures AliasPath(data).None? && r.Some? ==> r.value == ParseSearchResults(data)
  {
    FreshWalkIsScan(fuel, data);
    var tiered := TieredList(data);
    if tiered != [] then Some(FilterMap(ToItem, tiered))
    else
      match WalkNode(fuel, AliasPath(data), Visit([], data), [])
      case None => None
      case Some(found) => Some(FilterMap(ToItem, Nodes(found)))
  }

  // ---------------------------------------------------------------------------
  // Without aliasing the walk is the scan

  lemma NodesAppend(a: seq<Visit>, b: seq<Visit>)
    ensures Nodes(a + b) == Nodes(a) + Nodes(b)
  {
  }

  lemma {:induction false} WalkNodeIsScan(fuel: nat, v: Visit, acc: seq<Visit>)
    requires WalkNode(fuel, None, v, acc).Some?
    ensures Nodes(WalkNode(fuel, None, v, acc).value) == Nodes(acc) + Scan(v.node)
    decreases fuel
  {
    match v.node
    case Obj(fs) =>
      var acc1 := if IsMatch(v.node) then acc + [v] else acc;
      WalkFieldsIsScan(fuel - 1, v.path, fs, 0, acc1);
      NodesAppend(acc, [v]);
      assert fs[0..] == fs;
    case Arr(xs) =>
      WalkItemsIsScan(fuel - 1, v.path, xs, 0, acc);
      assert xs[0..] == xs;
    case _ =>
  }

  lemma {:induction false} WalkFieldsIsScan(fuel: nat, path: seq<nat>, fs: seq<Field>, i: nat, acc: seq<Visit>)
    requires i <= |fs|
    requires WalkFields(fuel, None, path, fs, i, acc).Some?
    ensures Nodes(WalkFields(fuel, None, path, fs, i, acc).value) == Nodes(acc) + ScanFields(fs[i..])
    decreases fuel
  {
    if i < |fs| {
      var v := Visit(path + [i], fs[i].value);
      var acc' := WalkNode(fuel - 1, None, v, acc).value;
      WalkNodeIsScan(fuel - 1, v, acc);
      WalkFieldsIsScan(fuel - 1, path, fs, i + 1, acc');
      assert fs[i..][0] == fs[i] && fs[i..][1..] == fs[i + 1..];
    }
  }

  lemma {:induction false} WalkItemsIsScan(fuel: nat, path: seq<nat>, xs: seq<Json>, i: nat, acc: seq<Visit>)
    requires i <= |xs|
    requires WalkItems(fuel, None, path, xs, i, acc).Some?
    ensures Nodes(WalkItems(fuel, None, path, xs, i, acc).value) == Nodes(acc) + ScanList(xs[i..])
    decreases fuel
  {
    if i < |xs| {
      var v := Visit(path + [i], xs[i]);
      var acc' := WalkNode(fuel - 1, None, v, acc).value;
      WalkNodeIsScan(fuel - 1, v, acc);
      WalkItemsIsScan(fuel - 1, path, xs, i + 1, acc');
      assert xs[i..][0] == xs[i] && xs[i..][1..] == xs[i + 1..];
    }
  }

  /** From the root, with `products` a fresh list, a finished walk collects
      exactly what the scan collects. */
  lemma FreshWalkIsScan(fuel: nat, data: Json)
    ensures AliasPath(data).None? && WalkNode(fuel, None, Visit([], data), []).Some? ==>
              Nodes(WalkNode(fuel, None, Visit([], data), []).value) == Scan(data)
  {
    if AliasPath(data).None? && WalkNode(fuel, None, Visit([], data), []).Some? {
      WalkNodeIsScan(fuel, Visit([], data), []);
      assert Nodes([]) == [];
    }
  }

  // ---------------------------------------------------------------------------
  // Fuel: without aliasing the walk finishes, and more fuel changes nothing

  /** Steps the walk of `j` takes when no list in it is `products`. */
  function Size(j: Json): (n: nat)
    ensures n >= 1
    decreases j
  {
    match j
    case Obj(fs) => 2 + SizeFields(fs)
    case Arr(xs) => 2 + SizeList(xs)
    case _ => 1
  }

  function SizeFields(fs: seq<Field>): nat
    decreases fs
  {
    if fs == [] then 0 else Size(fs[0].value) + 1 + SizeFields(fs[1..])
  }

  function SizeList(xs: seq<Json>): nat
    decreases xs
  {
    if xs == [] then 0 else Size(xs[0]) + 1 + SizeList(xs[1..])
  }

  lemma {:induction false} WalkNodeFinishes(fuel: nat, v: Visit, acc: seq<Visit>)
    requires fuel >= Size(v.node)
    ensures WalkNode(fuel, None, v, acc).Some?
    decreases v.node, 1
  {
    match v.node
    case Obj(fs) =>
      assert fs[0..] == fs;
      WalkFieldsFinishes(fuel - 1, v.path, fs, 0, if IsMatch(v.node) then acc + [v] else acc);
    case Arr(xs) =>
      assert xs[0..] == xs;
      WalkItemsFinishes(fuel - 1, v.path, xs, 0, acc);
    case _ =>
  }

  lemma {:induction false} WalkFieldsFinishes(fuel: nat, path: seq<nat>, fs: seq<Field>, i: nat, acc: seq<Visit>)
    requires i <= |fs| && fuel >= 1 + SizeFields(fs[i..])
    ensures WalkFields(fuel, None, path, fs, i, acc).Some?
    decreases fs, 0, |fs| - i
  {
    if i < |fs| {
      assert fs[i..][0] == fs[i] && fs[i..][1..] == fs[i + 1..];
      assert fs[i].value < Obj(fs);
      WalkNodeFinishes(fuel - 1, Visit(path + [i], fs[i].value), acc);
      var acc' := WalkNode(fuel - 1, None, Visit(path + [i], fs[i].value), acc).value;
      WalkFieldsFinishes(fuel - 1, path, fs, i + 1, acc');
    }
  }

  lemma {:induction false} WalkItemsFinishes(fuel: nat, path: seq<nat>, xs: seq<Json>, i: nat, acc: seq<Visit>)
    requires i <= |xs| && fuel >= 1 + SizeList(xs[i..])
    ensures WalkItems(fuel, None, path, xs, i, acc).Some?
    decreases xs, 0, |xs| - i
  {
    if i < |xs| {
      assert xs[i..][0] == xs[i] && xs[i..][1..] == xs[i + 1..];
      WalkNodeFinishes(fuel - 1, Visit(path + [i], xs[i]), acc);
      var acc' := WalkNode(fuel - 1, None, Visit(path + [i], xs[i]), acc).value;
      WalkItemsFinishes(fuel - 1, path, xs, i + 1, acc');
    }
  }

  /** When no empty payload list is bound to `products`, the source's
      extraction finishes once it has the payload's size in fuel, and equals
      the corrected one. */
  lemma AsWrittenFinishesWithoutAlias(fuel: nat, data: Json)
    requires AliasPath(data).None? && fuel >= Size(data)
    ensures ParseAsWritten(fuel, data) == Some(ParseSearchResults(data))
  {
    if TieredList(data) == [] {
      WalkNodeFinishes(fuel, Visit([], data), []);
    }
  }

  /** A walk that finishes gives the same answer with more fuel, whatever list
      is bound to `products`. */
  lemma {:induction false} WalkNodeMonotone(fuel: nat, more: nat, alias: Option<seq<nat>>, v: Visit, acc: seq<Visit>)
    requires fuel <= more && WalkNode(fuel, alias, v, acc).Some?
    ensures WalkNode(more, alias, v, acc) == WalkNode(fuel, alias, v, acc)
    decreases fuel
  {
    match v.node
    case Obj(fs) =>
      WalkFieldsMonotone(fuel - 1, more - 1, alias, v.path, fs, 0, if IsMatch(v.node) then acc + [v] else acc);
    case Arr(xs) =>
      if alias == Some(v.path) {
        WalkLiveMonotone(fuel - 1, more - 1, alias, 0, acc);
      } else {
        WalkItemsMonotone(fuel - 1, more - 1, alias, v.path, xs, 0, acc);
      }
    case _ =>
  }

  lemma {:induction false} WalkFieldsMonotone(fuel: nat, more: nat, alias: Option<seq<nat>>, path: seq<nat>,
                                              fs: seq<Field>, i: nat, acc: seq<Visit>)
    requires fuel <= more && WalkFields(fuel, alias, path, fs, i, acc).Some?
    ensures WalkFields(more, alias, path, fs, i, acc) == WalkFields(fuel, alias, path, fs, i, acc)
    decreases fuel
  {
    if i < |fs| {
      var v := Visit(path + [i], fs[i].value);
      WalkNodeMonotone(fuel - 1, more - 1, alias, v, acc);
      WalkFieldsMonotone(fuel - 1, more - 1, alias, path, fs, i + 1, WalkNode(fuel - 1, alias, v, acc).value);
    }
  }

  lemma {:induction false} WalkItemsMonotone(fuel: nat, more: nat, alias: Option<seq<nat>>, path: seq<nat>,
                                             xs: seq<Json>, i: nat, acc: seq<Visit>)
    requires fuel <= more && WalkItems(fuel, alias, path, xs, i, acc).Some?
    ensures WalkItems(more, alias, path, xs, i, acc) == WalkItems(fuel, alias, path, xs, i, acc)
    decreases fuel
  {
    if i < |xs| {
      var v := Visit(path + [i], xs[i]);
      WalkNodeMonotone(fuel - 1, more - 1, alias, v, acc);
      WalkItemsMonotone(fuel - 1, more - 1, alias, path, xs, i + 1, WalkNode(fuel - 1, alias, v, acc).value);
    }
  }

  lemma {:induction false} WalkLiveMonotone(fuel: nat, more: nat, alias: Option<seq<nat>>, i: nat, acc: seq<Visit>)
    requires fuel <= more && WalkLive(fuel, alias, i, acc).Some?
    ensures WalkLive(more, alias, i, acc) == WalkLive(fuel, alias, i, acc)
    decreases fuel
  {
    if i < |acc| {
      WalkNodeMonotone(fuel - 1, more - 1, alias, acc[i], acc);
      WalkLiveMonotone(fuel - 1, more - 1, alias, i + 1, WalkNode(fuel - 1, alias, acc[i], acc).value);
    }
  }

  /** Once the source's extraction finishes, more fuel gives the same answer:
      `None` at every bound means it never finishes. */
  lemma ParseAsWrittenMonotone(fuel: nat, more: nat, data: Json)
    requires fuel <= more && ParseAsWritten(fuel, data).Some?
    ensures ParseAsWritten(more, data) == ParseAsWritten(fuel, data)
  {
    if TieredList(data) == [] {
      WalkNodeMonotone(fuel, more, AliasPath(data), Visit([], data), []);
    }
  }

  // ---------------------------------------------------------------------------
  // The counterexample: {"x": {"id": 1, "price": 5}, "items": []}

  const Probe: Json := Obj([Field("id", Int(1)), Field("price", Int(5))])
  const LoopAnswer: Json := Obj([Field("x", Probe), Field("items", Arr([]))])
  const ProbeVisit: Visit := Visit([0], Probe)

  lemma LoopAnswerAlias()
    ensures TieredList(LoopAnswer) == []
    ensures AliasPath(LoopAnswer) == Some([1])
  {
    var d := LoopAnswer;
    assert d.fields[1].key == "items";
    assert ListAt(d, "data").None?;
    assert ListAt(d, "items") == Some([]);
    assert TopKeys[1..] == ["items", "products", "subjects"];
    assert FirstListKey(d, TopKeys[1..]) == Some("items");
    assert FirstListKey(d, TopKeys) == Some("items");
    assert KeyIndex(d.fields, "items") == 1;
  }

  lemma ProbeMatches()
    ensures IsMatch(Probe)
  {
    assert Probe.fields[0].key == "id";
    assert Probe.fields[1].key == "price";
  }

  /** Walking the probe appends it, or runs out of fuel. */
  lemma ProbeWalk(fuel: nat, acc: seq<Visit>)
    ensures WalkNode(fuel, Some([1]), ProbeVisit, acc) in {None, Some(acc + [ProbeVisit])}
  {
    ProbeMatches();
    var acc1 := acc + [ProbeVisit];
    var alias := Some([1]);
    var fs := Probe.fields;
    if fuel >= 1 {
      var f := fuel - 1;
      assert WalkNode(fuel, alias, ProbeVisit, acc) == WalkFields(f, alias, [0], fs, 0, acc1);
      if f >= 2 {
        assert WalkNode(f - 1, alias, Visit([0] + [0], Int(1)), acc1) == Some(acc1);
        assert WalkFields(f, alias, [0], fs, 0, acc1) == WalkFields(f - 1, alias, [0], fs, 1, acc1);
        if f >= 3 {
          assert WalkNode(f - 2, alias, Visit([0] + [1], Int(5)), acc1) == Some(acc1);
          assert WalkFields(f - 1, alias, [0], fs, 1, acc1) == WalkFields(f - 2, alias, [0], fs, 2, acc1);
        }
      }
    }
  }

  /** Once `products` holds only the probe and the live walk has not reached
      its end, the walk never ends: every step appends one more probe. */
  lemma {:induction false} LiveWalkNeverEnds(fuel: nat, i: nat, acc: seq<Visit>)
    requires i < |acc|
    requires forall k :: 0 <= k < |acc| ==> acc[k] == ProbeVisit
    ensures WalkLive(fuel, Some([1]), i, acc).None?
    decreases fuel
  {
    if fuel > 0 {
      ProbeWalk(fuel - 1, acc);
      if WalkNode(fuel - 1, Some([1]), acc[i], acc).Some? {
        LiveWalkNeverEnds(fuel - 1, i + 1, acc + [ProbeVisit]);
      }
    }
  }

  /** Reaching `"items"` with the probe collected starts the endless walk. */
  lemma ItemsFieldNeverEnds(fuel: nat)
    ensures WalkFields(fuel, Some([1]), [], LoopAnswer.fields, 1, [ProbeVisit]).None?
  {
    var alias := Some([1]);
    if fuel >= 2 {
      assert [] + [1] == [1];
      assert LoopAnswer.fields[1].value == Arr([]);
      assert WalkNode(fuel - 1, alias, Visit([1], Arr([])), [ProbeVisit])
             == WalkLive(fuel - 2, alias, 0, [ProbeVisit]);
      LiveWalkNeverEnds(fuel - 2, 0, [ProbeVisit]);
    }
  }

  /** The walk of `{"x": {"id": 1, "price": 5}, "items": []}` with `items`
      bound to `products` never ends. */
  lemma LoopWalkNeverEnds(fuel: nat)
    ensures WalkNode(fuel, Some([1]), Visit([], LoopAnswer), []).None?
  {
    var alias := Some([1]);
    var fs := LoopAnswer.fields;
    assert !IsMatch(LoopAnswer) by {
      assert fs[0].key != "id" && fs[1].key != "id";
    }
    if fuel >= 2 {
      var f := fuel - 1;
      assert WalkNode(fuel, alias, Visit([], LoopAnswer), []) == WalkFields(f, alias, [], fs, 0, []);
      assert [] + [0] == [0];
      assert fs[0].value == Probe;
      ProbeWalk(f - 1, []);
      if WalkNode(f - 1, alias, ProbeVisit, []).Some? {
        assert [] + [ProbeVisit] == [ProbeVisit];
        assert WalkNode(f - 1, alias, Visit([] + [0], fs[0].value), []) == Some([ProbeVisit]);
        assert WalkFields(f, alias, [], fs, 0, []) == WalkFields(f - 1, alias, [], fs, 1, [ProbeVisit]);
        ItemsFieldNeverEnds(f - 1);
      }
    }
  }

  /** As written, the extraction of `{"x": {"id": 1, "price": 5}, "items": []}`
      does not finish within any bound. */
  lemma LoopAnswerNeverFinishes(fuel: nat)
    ensures ParseAsWritten(fuel, LoopAnswer).None?
  {
    LoopAnswerAlias();
    LoopWalkNeverEnds(fuel);
  }

  lemma LoopScan()
    ensures Scan(LoopAnswer) == [Probe]
  {
    ProbeMatches();
    assert !IsMatch(LoopAnswer) by {
      assert LoopAnswer.fields[0].key != "id" && LoopAnswer.fields[1].key != "id";
    }
    assert Scan(Probe) == [Probe];
    assert Scan(Arr([])) == [];
    assert ScanFields(LoopAnswer.fields[1..]) == [];
    assert ScanFields(LoopAnswer.fields) == [Probe];
  }

  lemma LoopCandidates()
    ensures Candidates(LoopAnswer) == [Probe]
  {
    LoopAnswerAlias();
    LoopScan();
  }

  lemma ProbeLookups()
    ensures Get(Probe, "id") == Int(1) && Get(Probe, "price") == Int(5)
    ensures Get(Probe, "salePriceU") == Null && Get(Probe, "priceU") == Null
    ensures Get(Probe, "name") == Null && Get(Probe, "title") == Null && Get(Probe, "brand") == Null
  {
    var fs := Probe.fields;
    assert fs[0].key == "id" && fs[1].key == "price";
    assert !HasKey(fs, "salePriceU") && !HasKey(fs, "priceU");
    assert !HasKey(fs, "name") && !HasKey(fs, "title") && !HasKey(fs, "brand");
  }

  lemma ProbeToItem()
    ensures ToItem(Probe) == Some(PricedItem("1", Str(""), 5, Some(UrlPrefix + "1" + UrlSuffix)))
  {
    ProbeLookups();
    PidFallback(Probe);
    RawPriceFallback(Probe);
    NameFallback(Probe);
    assert PyStr(Int(1)) == "1";
  }

  /** The corrected extraction returns the one product of that answer. */
  lemma LoopAnswerCorrected()
    ensures ParseSearchResults(LoopAnswer)
            == [PricedItem("1", Str(""), 5, Some(UrlPrefix + "1" + UrlSuffix))]
  {
    LoopCandidates();
    ProbeToItem();
  }
}
