/** Worked payloads: what the extractor and the notify step make of two
    concrete search answers. */
module Scenarios {
  import opened Wrappers
  import opened Json
  import opened PyText
  import opened Seqs
  import opened Extract
  import opened Notify

  /** `{"id": 123, "salePriceU": 4999900, "name": "iPhone 16"}` */
  const Phone: Json := Obj([Field("id", Int(123)), Field("salePriceU", Int(4999900)), Field("name", Str("iPhone 16"))])

  /** `{"data": {"products": [Phone]}}` */
  const NestedAnswer: Json := Obj([Field("data", Obj([Field("products", Arr([Phone]))]))])

  const PhoneItem: PricedItem := PricedItem("123", Str("iPhone 16"), 4999900, Some(UrlPrefix + "123" + UrlSuffix))

  /** `{"id": 5, "price": "12345600"}` */
  const Expensive: Json := Obj([Field("id", Int(5)), Field("price", Str("12345600"))])

  /** `{"products": [Expensive]}` */
  const StringPriceAnswer: Json := Obj([Field("products", Arr([Expensive]))])

  lemma PhoneLookups()
    ensures Get(Phone, "id") == Int(123)
    ensures Get(Phone, "salePriceU") == Int(4999900)
    ensures Get(Phone, "name") == Str("iPhone 16")
  {
    assert Phone.fields[0].key == "id";
    assert Phone.fields[1].key == "salePriceU";
    assert Phone.fields[2].key == "name";
  }

  /** A non-zero `salePriceU` is the raw price. */
  lemma PriceFromSale(p: Json, k: int)
    requires p.Obj? && Get(p, "salePriceU") == Int(k) && k != 0
    ensures RawPrice(p) == Int(k)
  {
    RawPriceFallback(p);
  }

  lemma PhonePrice()
    ensures RawPrice(Phone) == Int(4999900)
  {
    PhoneLookups();
    PriceFromSale(Phone, 4999900);
  }

  /** A truthy `id` is the identifier. */
  lemma PidFromId(p: Json, id: int)
    requires p.Obj? && Get(p, "id") == Int(id) && id != 0
    ensures Pid(p) == Int(id)
  {
    PidFallback(p);
  }

  /** A non-empty `name` is the name. */
  lemma NameFromName(p: Json, name: string)
    requires p.Obj? && Get(p, "name") == Str(name) && name != []
    ensures Name(p) == Str(name)
  {
    NameFallback(p);
  }

  lemma PhonePid()
    ensures Pid(Phone) == Int(123)
  {
    PhoneLookups();
    PidFromId(Phone, 123);
  }

  lemma PhoneName()
    ensures Name(Phone) == Str("iPhone 16")
  {
    PhoneLookups();
    NameFromName(Phone, "iPhone 16");
  }

  lemma PhoneFields()
    ensures RawPrice(Phone) == Int(4999900)
    ensures Pid(Phone) == Int(123)
    ensures Name(Phone) == Str("iPhone 16")
  {
    PhonePrice();
    PhonePid();
    PhoneName();
  }

  lemma PhoneKopecks()
    ensures Kopecks(RawPrice(Phone)) == Some(4999900)
  {
    PhoneFields();
  }

  lemma Text123()
    ensures PyStr(Int(123)) == "123"
  {
    assert NatText(1) == "1";
    assert NatText(12) == "12";
  }

  lemma PhoneIdText()
    ensures PyStr(Pid(Phone)) == "123"
  {
    PhoneFields();
    Text123();
  }

  lemma PhoneToItem()
    ensures ToItem(Phone) == Some(PhoneItem)
  {
    PhoneFields();
    PhoneKopecks();
    PhoneIdText();
    assert ToItem(Phone).Some?;
    var it := ToItem(Phone).value;
    assert it.id == "123";
    assert it.kopecks == 4999900;
    assert it.name == Str("iPhone 16");
    assert it.url == Some(UrlPrefix + it.id + UrlSuffix);
  }

  /** The product sits under `data.products`: tier one finds nothing (`data`
      holds a mapping), tier two finds it, and it becomes one item priced
      49999 roubles. */
  lemma NestedAnswerParses()
    ensures ParseSearchResults(NestedAnswer) == [PhoneItem]
  {
    assert ListAt(NestedAnswer, "data").None?;
    assert FirstList(NestedAnswer, TopKeys).None?;
    assert Candidates(NestedAnswer) == [Phone];
    PhoneToItem();
  }

  lemma Text49999()
    ensures IntText(TruncDiv100(4999900)) == "49999"
  {
    assert TruncDiv100(4999900) == 49999;
    assert NatText(49999) == "49999" by {
      assert NatText(4) == "4";
      assert NatText(49) == "49";
      assert NatText(499) == "499";
      assert NatText(4999) == "4999";
    }
  }

  lemma PhoneKey()
    ensures DedupKey("Iphone 16", PhoneItem) == "Iphone 16__123__49999"
  {
    Text49999();
    assert Identity(PhoneItem) == "123";
    JoinKeyThree("Iphone 16", "123", "49999");
    var q: string := "Iphone 16";
    calc {
      DedupKey(q, PhoneItem);
      q + "__" + "123" + "__" + "49999";
      "Iphone 16__123__49999";
    }
  }

  /** With threshold 50000 the item qualifies and is notified once, under
      `Iphone 16__123__49999`. */
  lemma NestedAnswerNotifies(notified: set<string>)
    requires "Iphone 16__123__49999" !in notified
    ensures var r := ProcessItems(notified, Queries[0], ParseSearchResults(NestedAnswer), _ => true);
            r.outcomes == [Delivered] && r.notified == notified + {"Iphone 16__123__49999"}
  {
    NestedAnswerParses();
    PhoneKey();
    var ok: nat -> bool := _ => true;
    var s := Step(notified, Queries[0], PhoneItem, true);
    assert s == StepResult(notified + {"Iphone 16__123__49999"}, Delivered);
    assert ProcessFrom(s.notified, Queries[0], [PhoneItem], ok, 1) == RunResult(s.notified, []);
  }

  lemma ExpensivePrice()
    ensures Kopecks(Str("12345600")) == Some(12345600)
  {
    assert NatText(12345600) == "12345600" by {
      assert NatText(1) == "1";
      assert NatText(12) == "12";
      assert NatText(123) == "123";
      assert NatText(1234) == "1234";
      assert NatText(12345) == "12345";
      assert NatText(123456) == "123456";
      assert NatText(1234560) == "1234560";
    }
    KopecksReadsNumbers(12345600, 0);
  }

  lemma ExpensiveLookups()
    ensures Get(Expensive, "price") == Str("12345600")
    ensures Get(Expensive, "salePriceU") == Null && Get(Expensive, "priceU") == Null
  {
    var fs := Expensive.fields;
    assert fs[0].key == "id" && fs[1].key == "price";
    assert !HasKey(fs, "salePriceU") && !HasKey(fs, "priceU");
  }

  lemma ExpensiveRawPrice()
    ensures RawPrice(Expensive) == Str("12345600")
  {
    ExpensiveLookups();
    RawPriceFallback(Expensive);
  }

  lemma ExpensiveToItem()
    ensures ToItem(Expensive).Some? && ToItem(Expensive).value.kopecks == 12345600
  {
    ExpensiveRawPrice();
    ExpensivePrice();
  }

  /** A digit-string price is read as kopecks: 123456 roubles, above the
      threshold, so nothing is sent and the set is unchanged. */
  lemma StringPriceAboveThreshold(notified: set<string>)
    ensures |ParseSearchResults(StringPriceAnswer)| == 1
    ensures ParseSearchResults(StringPriceAnswer)[0].kopecks == 12345600
    ensures var r := ProcessItems(notified, Queries[0], ParseSearchResults(StringPriceAnswer), _ => true);
            r.outcomes == [AboveThreshold] && r.notified == notified
  {
    assert StringPriceAnswer.fields[0].key == "products";
    assert ListAt(StringPriceAnswer, "data").None?;
    assert ListAt(StringPriceAnswer, "items").None?;
    assert ListAt(StringPriceAnswer, "products") == Some([Expensive]);
    assert TopKeys[1..] == ["items", "products", "subjects"];
    assert TopKeys[1..][1..] == ["products", "subjects"];
    assert FirstList(StringPriceAnswer, TopKeys[1..][1..]) == Some([Expensive]);
    assert FirstList(StringPriceAnswer, TopKeys[1..]) == Some([Expensive]);
    assert FirstList(StringPriceAnswer, TopKeys) == Some([Expensive]);
    assert Candidates(StringPriceAnswer) == [Expensive];
    ExpensiveToItem();
    var item := ToItem(Expensive).value;
    assert ParseSearchResults(StringPriceAnswer) == [item];
    var ok: nat -> bool := _ => true;
    assert ProcessFrom(notified, Queries[0], [item], ok, 1) == RunResult(notified, []);
  }
}
