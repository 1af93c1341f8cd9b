/** Feed requests with the lookups they really read: each learns its till codes anew from the lines stored
    when it starts (packages/pos/src/ingest.ts). What a payload sent again then changes. */
module PosRelearn {
  import opened LearnedAliases
  import opened PosIngest
  import opened PosLines
  import opened PosPlan
  import opened PosResend
  import opened PosRollup
  import opened Sorting
  import opened Wrappers

  // ---------------------------------------------------------------- what the ledger teaches

  function LineMatch(): StoredLine -> MatchedLine { (l: StoredLine) => MatchedLine(l.sku, l.productId) }

  /** Every stored line with the product it was matched to. */
  function MatchesOf(ledger: seq<Sale>): seq<MatchedLine> {
    if ledger == [] then [] else Map(ledger[0].lines, LineMatch()) + MatchesOf(ledger[1..])
  }

  /** The products the ledger's lines match a code to. */
  function Told(norm: string -> string, ledger: seq<Sale>, key: string): set<string> {
    MatchedTo(MatchesOf(ledger), norm, key)
  }

  /** A line with this code is matched to this product. */
  predicate Tells(norm: string -> string, line: StoredLine, key: string, productId: string) {
    line.productId == Some(productId) && productId != "" && norm(line.sku) == key
  }

  lemma {:induction false} MatchesMembers(ledger: seq<Sale>, row: MatchedLine)
    ensures row in MatchesOf(ledger) <==> exists s, l :: s in ledger && l in s.lines && LineMatch()(l) == row
  {
    if ledger == [] {
    } else {
      var first, rest := Map(ledger[0].lines, LineMatch()), MatchesOf(ledger[1..]);
      MatchesMembers(ledger[1..], row);
      assert ledger == [ledger[0]] + ledger[1..];
      if row in first {
        var i :| 0 <= i < |first| && first[i] == row;
        assert ledger[0].lines[i] in ledger[0].lines && LineMatch()(ledger[0].lines[i]) == row;
      }
      if s, l :| s in ledger && l in s.lines && LineMatch()(l) == row {
        if s == ledger[0] {
          var i :| 0 <= i < |s.lines| && s.lines[i] == l;
          assert first[i] == row;
        }
      }
    }
  }

  lemma ToldMeans(norm: string -> string, ledger: seq<Sale>, key: string, productId: string)
    ensures productId in Told(norm, ledger, key)
       <==> exists s, l :: s in ledger && l in s.lines && Tells(norm, l, key, productId)
  {
    hide MatchesOf;
    if productId in Told(norm, ledger, key) {
      var row :| row in MatchesOf(ledger) && Speaks(row, norm, key) && row.productId.value == productId;
      MatchesMembers(ledger, row);
      var s, l :| s in ledger && l in s.lines && LineMatch()(l) == row;
      assert Tells(norm, l, key, productId);
    }
    if s, l :| s in ledger && l in s.lines && Tells(norm, l, key, productId) {
      MatchesMembers(ledger, LineMatch()(l));
      assert Speaks(LineMatch()(l), norm, key);
    }
  }

  lemma ToldConcat(norm: string -> string, a: seq<Sale>, b: seq<Sale>, key: string)
    ensures Told(norm, a + b, key) == Told(norm, a, key) + Told(norm, b, key)
  {
    hide Told, Tells;
    forall p ensures p in Told(norm, a + b, key) <==> p in Told(norm, a, key) + Told(norm, b, key) {
      ToldMeans(norm, a + b, key, p);
      ToldMeans(norm, a, key, p);
      ToldMeans(norm, b, key, p);
    }
  }

  lemma ToldLess(norm: string -> string, part: seq<Sale>, whole: seq<Sale>, key: string)
    requires forall s :: s in part ==> s in whole
    ensures Told(norm, part, key) <= Told(norm, whole, key)
  {
    hide Told, Tells;
    forall p | p in Told(norm, part, key) ensures p in Told(norm, whole, key) {
      ToldMeans(norm, part, key, p);
      ToldMeans(norm, whole, key, p);
    }
  }

  // ---------------------------------------------------------------- the lookups of a request

  /** The catalogue's lookups and what the ledger teaches beyond them. */
  ghost function Lookups(catalogue: Maps, ledger: seq<Sale>): Maps {
    catalogue.(skuToProductId := Learn(catalogue.skuToProductId, MatchesOf(ledger), catalogue.norm))
  }

  ghost function Post(catalogue: Maps, clock: Clock, st: State, sales: seq<SaleInput>): State {
    Ingest(Lookups(catalogue, st.ledger), clock, st, sales)
  }

  /** The product a code stands for in some lookups. */
  function Meaning(maps: Maps, key: string): Option<string> {
    if key in maps.skuToProductId then Some(maps.skuToProductId[key]) else None
  }

  /** Codes the catalogue does not know are learned when all matches name one product. */
  predicate Open(catalogue: Maps, key: string) { key != "" && key !in catalogue.skuToProductId }

  lemma LookupsMean(catalogue: Maps, ledger: seq<Sale>, key: string)
    ensures var told := Told(catalogue.norm, ledger, key);
      Meaning(Lookups(catalogue, ledger), key) ==
      if !Open(catalogue, key) then Meaning(catalogue, key)
      else if |told| == 1 then Some(TheOne(told)) else None
  {
    hide MatchesOf;
    LearnIsLearned(catalogue.skuToProductId, MatchesOf(ledger), catalogue.norm);
    var told := Told(catalogue.norm, ledger, key);
    if Open(catalogue, key) && |told| == 1 {
      assert Teaches(MatchesOf(ledger), catalogue.norm, key, TheOne(told));
    }
  }

  lemma SameMeanings(catalogue: Maps, a: seq<Sale>, b: seq<Sale>)
    ensures Lookups(catalogue, a) == Lookups(catalogue, b)
       <==> forall key :: Meaning(Lookups(catalogue, a), key) == Meaning(Lookups(catalogue, b), key)
  {
    hide Learn;
    var x, y := Lookups(catalogue, a).skuToProductId, Lookups(catalogue, b).skuToProductId;
    if forall key :: Meaning(Lookups(catalogue, a), key) == Meaning(Lookups(catalogue, b), key) {
      forall key ensures key in x <==> key in y {
        assert Meaning(Lookups(catalogue, a), key) == Meaning(Lookups(catalogue, b), key);
      }
      forall key | key in x ensures x[key] == y[key] {
        assert Meaning(Lookups(catalogue, a), key) == Meaning(Lookups(catalogue, b), key);
      }
      assert x == y;
    }
  }

  // ---------------------------------------------------------------- what the payload teaches

  ghost predicate SameButCodes(catalogue: Maps, maps: Maps) {
    maps == catalogue.(skuToProductId := maps.skuToProductId)
  }

  /** The physical receipts of a payload, the last of each id. */
  function Chosen(catalogue: Maps, sales: seq<SaleInput>): seq<SaleInput> {
    Filter(Dedupe(sales), Physical(catalogue))
  }

  /** The till codes on their lines. */
  function PayloadCodes(catalogue: Maps, sales: seq<SaleInput>): set<string> {
    set s, l | s in Chosen(catalogue, sales) && l in s.lines :: catalogue.norm(l.sku)
  }

  lemma PlanIsChosen(catalogue: Maps, maps: Maps, sales: seq<SaleInput>)
    requires SameButCodes(catalogue, maps)
    ensures Plan(maps, sales) == Map(Chosen(catalogue, sales), ToSale(maps))
  {
    FilterSame(Dedupe(sales), Physical(maps), Physical(catalogue));
  }

  lemma StoredMeaning(maps: Maps, l: LineInput)
    ensures StoredLineOf(maps, l).sku == l.sku
    ensures StoredLineOf(maps, l).productId == if maps.norm(l.sku) == "" then None else Meaning(maps, maps.norm(l.sku))
  {}

  lemma PlanTells(catalogue: Maps, maps: Maps, sales: seq<SaleInput>, key: string, p: string)
    requires SameButCodes(catalogue, maps) && key != "" && p in Told(catalogue.norm, Plan(maps, sales), key)
    ensures key in PayloadCodes(catalogue, sales) && Meaning(maps, key) == Some(p)
  {
    hide Told, Chosen, Plan, StoredLineOf;
    var chosen, plan := Chosen(catalogue, sales), Plan(maps, sales);
    PlanIsChosen(catalogue, maps, sales);
    ToldMeans(catalogue.norm, plan, key, p);
    var s, l :| s in plan && l in s.lines && Tells(catalogue.norm, l, key, p);
    var i :| 0 <= i < |plan| && plan[i] == s;
    var j :| 0 <= j < |s.lines| && s.lines[j] == l;
    StoredMeaning(maps, chosen[i].lines[j]);
    assert chosen[i] in chosen && chosen[i].lines[j] in chosen[i].lines;
  }

  lemma PlanIsTold(catalogue: Maps, maps: Maps, sales: seq<SaleInput>, key: string, p: string)
    requires SameButCodes(catalogue, maps) && key != "" && p != ""
    requires key in PayloadCodes(catalogue, sales) && Meaning(maps, key) == Some(p)
    ensures p in Told(catalogue.norm, Plan(maps, sales), key)
  {
    hide Told, Chosen, Plan, StoredLineOf;
    var chosen, plan := Chosen(catalogue, sales), Plan(maps, sales);
    PlanIsChosen(catalogue, maps, sales);
    var s, l :| s in chosen && l in s.lines && catalogue.norm(l.sku) == key;
    var i :| 0 <= i < |chosen| && chosen[i] == s;
    var j :| 0 <= j < |s.lines| && s.lines[j] == l;
    StoredMeaning(maps, l);
    assert plan[i] in plan && plan[i].lines[j] in plan[i].lines && Tells(catalogue.norm, plan[i].lines[j], key, p);
    ToldMeans(catalogue.norm, plan, key, p);
  }

  /** Planned lines teach their own code's meaning and nothing else. */
  lemma PlanTold(catalogue: Maps, maps: Maps, sales: seq<SaleInput>, key: string)
    requires SameButCodes(catalogue, maps) && key != "" && Meaning(maps, key) != Some("")
    ensures Told(catalogue.norm, Plan(maps, sales), key) ==
            if key in PayloadCodes(catalogue, sales) && Meaning(maps, key).Some? then {Meaning(maps, key).value} else {}
  {
    hide Told, PayloadCodes, Plan, Meaning, SameButCodes;
    forall p ensures p in Told(catalogue.norm, Plan(maps, sales), key)
                <==> key in PayloadCodes(catalogue, sales) && Meaning(maps, key) == Some(p) {
      if p in Told(catalogue.norm, Plan(maps, sales), key) { PlanTells(catalogue, maps, sales, key, p); }
      if key in PayloadCodes(catalogue, sales) && Meaning(maps, key) == Some(p) {
        PlanIsTold(catalogue, maps, sales, key, p);
      }
    }
  }

  lemma SamePlanSameMeaning(catalogue: Maps, a: Maps, b: Maps, sales: seq<SaleInput>, key: string)
    requires SameButCodes(catalogue, a) && SameButCodes(catalogue, b) && Plan(a, sales) == Plan(b, sales)
    requires key in PayloadCodes(catalogue, sales) && key != ""
    ensures Meaning(a, key) == Meaning(b, key)
  {
    hide Chosen, Plan, StoredLineOf;
    var chosen := Chosen(catalogue, sales);
    PlanIsChosen(catalogue, a, sales);
    PlanIsChosen(catalogue, b, sales);
    var s, l :| s in chosen && l in s.lines && catalogue.norm(l.sku) == key;
    var i :| 0 <= i < |chosen| && chosen[i] == s;
    var j :| 0 <= j < |s.lines| && s.lines[j] == l;
    StoredMeaning(a, l);
    StoredMeaning(b, l);
    assert Plan(a, sales)[i].lines[j].productId == Plan(b, sales)[i].lines[j].productId;
  }

  lemma SameMeaningSamePlan(catalogue: Maps, a: Maps, b: Maps, sales: seq<SaleInput>)
    requires SameButCodes(catalogue, a) && SameButCodes(catalogue, b)
    requires forall key :: key in PayloadCodes(catalogue, sales) && key != "" ==> Meaning(a, key) == Meaning(b, key)
    ensures Plan(a, sales) == Plan(b, sales)
  {
    hide Chosen, Plan, StoredLineOf, Meaning, SameButCodes;
    var chosen := Chosen(catalogue, sales);
    PlanIsChosen(catalogue, a, sales);
    PlanIsChosen(catalogue, b, sales);
    forall i | 0 <= i < |chosen| ensures SaleOf(a, chosen[i]) == SaleOf(b, chosen[i]) {
      assert chosen[i] in chosen;
      SameLines(catalogue, a, b, chosen[i].lines, PayloadCodes(catalogue, sales));
    }
  }

  /** Two plans of a payload are equal exactly when its codes mean the same in both. */
  lemma PlansDiffer(catalogue: Maps, a: Maps, b: Maps, sales: seq<SaleInput>)
    requires SameButCodes(catalogue, a) && SameButCodes(catalogue, b)
    ensures Plan(a, sales) == Plan(b, sales)
       <==> forall key :: key in PayloadCodes(catalogue, sales) && key != "" ==> Meaning(a, key) == Meaning(b, key)
  {
    hide PayloadCodes, Plan, Meaning, SameButCodes;
    if Plan(a, sales) == Plan(b, sales) {
      forall key | key in PayloadCodes(catalogue, sales) && key != "" ensures Meaning(a, key) == Meaning(b, key) {
        SamePlanSameMeaning(catalogue, a, b, sales, key);
      }
    }
    if forall key :: key in PayloadCodes(catalogue, sales) && key != "" ==> Meaning(a, key) == Meaning(b, key) {
      SameMeaningSamePlan(catalogue, a, b, sales);
    }
  }

  lemma SameLines(catalogue: Maps, a: Maps, b: Maps, lines: seq<LineInput>, codes: set<string>)
    requires SameButCodes(catalogue, a) && SameButCodes(catalogue, b)
    requires forall l :: l in lines ==> catalogue.norm(l.sku) in codes
    requires forall key :: key in codes && key != "" ==> Meaning(a, key) == Meaning(b, key)
    ensures Map(lines, ToStoredLine(a)) == Map(lines, ToStoredLine(b))
  {
    forall j | 0 <= j < |lines| ensures StoredLineOf(a, lines[j]) == StoredLineOf(b, lines[j]) {
      assert lines[j] in lines;
      StoredMeaning(a, lines[j]);
      StoredMeaning(b, lines[j]);
    }
  }

  // ---------------------------------------------------------------- a request sent again

  function Kept(ledger: seq<Sale>, sales: seq<SaleInput>): seq<Sale> { Filter(ledger, WithoutIds(Ids(sales))) }

  /** The stored matches name several products and, without the receipts sent again, just one. */
  predicate Settles(catalogue: Maps, ledger: seq<Sale>, sales: seq<SaleInput>, key: string) {
    && Open(catalogue, key)
    && |Told(catalogue.norm, ledger, key)| != 1 && |Told(catalogue.norm, Kept(ledger, sales), key)| == 1
  }

  /** One product is named, only by receipts sent again, and none of them names the code any more. */
  predicate Forgets(catalogue: Maps, ledger: seq<Sale>, sales: seq<SaleInput>, key: string) {
    && Open(catalogue, key) && key !in PayloadCodes(catalogue, sales)
    && |Told(catalogue.norm, ledger, key)| == 1 && Told(catalogue.norm, Kept(ledger, sales), key) == {}
  }

  /** What the ledger teaches after the first request. */
  lemma ToldAfter(catalogue: Maps, ledger: seq<Sale>, sales: seq<SaleInput>, key: string)
    requires Open(catalogue, key)
    ensures var told, kept := Told(catalogue.norm, ledger, key), Told(catalogue.norm, Kept(ledger, sales), key);
      && kept <= told
      && Told(catalogue.norm, IngestLedger(Lookups(catalogue, ledger), ledger, sales), key) ==
           kept + if key in PayloadCodes(catalogue, sales) && |told| == 1 then told else {}
  {
    var maps := Lookups(catalogue, ledger);
    FilterProperties(ledger, WithoutIds(Ids(sales)));
    hide Told, Learn, Plan, PayloadCodes;
    ToldLess(catalogue.norm, Kept(ledger, sales), ledger, key);
    LookupsMean(catalogue, ledger, key);
    if |Told(catalogue.norm, ledger, key)| == 1 {
      ToldMeans(catalogue.norm, ledger, key, TheOne(Told(catalogue.norm, ledger, key)));
    }
    PlanTold(catalogue, maps, sales, key);
    ToldConcat(catalogue.norm, Kept(ledger, sales), Plan(maps, sales), key);
  }

  lemma SubsetOfOne(a: set<string>, b: set<string>)
    requires a <= b && |b| == 1 && |a| == 1
    ensures a == b
  {
    assert |b - a| == 0;
  }

  /** Whether two products are told by what is kept and what is replaced, seen as sets. */
  lemma OneBeforeAndAfter(told: set<string>, kept: set<string>, named: bool)
    requires kept <= told
    ensures var after := kept + if named && |told| == 1 then told else {};
      (if |told| == 1 then |after| == 1 && TheOne(after) == TheOne(told) else |after| != 1)
      <==> !(|told| != 1 && |kept| == 1) && !(!named && |told| == 1 && kept == {})
  {
    OneOrMore(kept, told);
    if |told| == 1 && kept != {} {
      assert |told| == |kept| + |told - kept|;
    }
  }

  /** A code means something else after the request exactly when it settles or is forgotten. */
  lemma MeaningAfter(catalogue: Maps, ledger: seq<Sale>, sales: seq<SaleInput>, key: string)
    ensures var once := IngestLedger(Lookups(catalogue, ledger), ledger, sales);
      Meaning(Lookups(catalogue, ledger), key) == Meaning(Lookups(catalogue, once), key)
      <==> !Settles(catalogue, ledger, sales, key) && !Forgets(catalogue, ledger, sales, key)
  {
    hide Told, PayloadCodes, IngestLedger, Kept, Lookups, Meaning;
    var once := IngestLedger(Lookups(catalogue, ledger), ledger, sales);
    LookupsMean(catalogue, ledger, key);
    LookupsMean(catalogue, once, key);
    if Open(catalogue, key) {
      ToldAfter(catalogue, ledger, sales, key);
      OneBeforeAndAfter(Told(catalogue.norm, ledger, key), Told(catalogue.norm, Kept(ledger, sales), key),
                        key in PayloadCodes(catalogue, sales));
    }
  }

  /** Sending a payload again changes the ledger exactly when one of its codes settles; it reads other
      lookups exactly when some code settles or is forgotten. */
  lemma RepostExact(catalogue: Maps, clock: Clock, st: State, sales: seq<SaleInput>)
    ensures var once := Post(catalogue, clock, st, sales); var twice := Post(catalogue, clock, once, sales);
      && (twice.ledger == once.ledger
          <==> forall key :: key in PayloadCodes(catalogue, sales) ==> !Settles(catalogue, st.ledger, sales, key))
      && (Lookups(catalogue, once.ledger) == Lookups(catalogue, st.ledger)
          <==> forall key :: !Settles(catalogue, st.ledger, sales, key) && !Forgets(catalogue, st.ledger, sales, key))
  {
    var once := Post(catalogue, clock, st, sales);
    var twice := Post(catalogue, clock, once, sales);
    var first, second := Lookups(catalogue, st.ledger), Lookups(catalogue, once.ledger);
    IngestIsRebuild(first, clock, st, sales);
    IngestIsRebuild(second, clock, once, sales);
    SecondLedger(first, second, st.ledger, sales);
    PlansDiffer(catalogue, first, second, sales);
    SameMeanings(catalogue, st.ledger, once.ledger);
    hide Lookups, Plan, Rebuild, Ingest, PayloadCodes, Meaning, Settles, Forgets, Filter;
    forall key ensures Meaning(first, key) == Meaning(second, key)
                  <==> !Settles(catalogue, st.ledger, sales, key) && !Forgets(catalogue, st.ledger, sales, key) {
      MeaningAfter(catalogue, st.ledger, sales, key);
    }
    forall key | key in PayloadCodes(catalogue, sales) ensures !Forgets(catalogue, st.ledger, sales, key) {
      NamedNotForgotten(catalogue, st.ledger, sales, key);
    }
    forall key | Settles(catalogue, st.ledger, sales, key) ensures key != "" {
      SettlingIsOpen(catalogue, st.ledger, sales, key);
    }
    SameTail(Kept(st.ledger, sales), Plan(first, sales), Plan(second, sales));
  }

  lemma NamedNotForgotten(catalogue: Maps, ledger: seq<Sale>, sales: seq<SaleInput>, key: string)
    requires key in PayloadCodes(catalogue, sales)
    ensures !Forgets(catalogue, ledger, sales, key)
  {}

  lemma SettlingIsOpen(catalogue: Maps, ledger: seq<Sale>, sales: seq<SaleInput>, key: string)
    requires Settles(catalogue, ledger, sales, key)
    ensures key != ""
  {}

  lemma SameTail(a: seq<Sale>, b: seq<Sale>, c: seq<Sale>)
    ensures a + b == a + c <==> b == c
  {
    if a + b == a + c {
      assert b == (a + b)[|a|..] == (a + c)[|a|..] == c;
    }
  }

  /** The same receipts, the same till rows day by day and in order, the same rows altogether. */
  ghost predicate SameStore(a: State, b: State) {
    && a.ledger == b.ledger
    && (forall day :: PosRows(a.history, day) == PosRows(b.history, day))
    && multiset(a.history) == multiset(b.history)
  }

  /** When no code settles and none is forgotten, sending a payload again changes nothing. */
  lemma RepostIsQuiet(catalogue: Maps, clock: Clock, st: State, sales: seq<SaleInput>)
    requires forall key :: !Settles(catalogue, st.ledger, sales, key) && !Forgets(catalogue, st.ledger, sales, key)
    ensures var once := Post(catalogue, clock, st, sales);
      SameStore(Post(catalogue, clock, once, sales), once)
  {
    RepostExact(catalogue, clock, st, sales);
    ReingestChangesNothing(Lookups(catalogue, st.ledger), clock, st, sales);
  }

  lemma KeptAgain(maps: Maps, ledger: seq<Sale>, sales: seq<SaleInput>)
    ensures Kept(IngestLedger(maps, ledger, sales), sales) == Kept(ledger, sales)
  {
    SecondLedger(maps, maps, ledger, sales);
  }

  /** After the first request a code that is settled without the receipts sent again is settled. */
  lemma SettledAfter(catalogue: Maps, ledger: seq<Sale>, sales: seq<SaleInput>, key: string)
    ensures var once := IngestLedger(Lookups(catalogue, ledger), ledger, sales);
      !Settles(catalogue, once, sales, key) && !Forgets(catalogue, once, sales, key)
  {
    hide Told, Lookups, PayloadCodes, IngestLedger, Kept;
    var maps := Lookups(catalogue, ledger);
    KeptAgain(maps, ledger, sales);
    if Open(catalogue, key) {
      ToldAfter(catalogue, ledger, sales, key);
      var told, kept := Told(catalogue.norm, ledger, key), Told(catalogue.norm, Kept(ledger, sales), key);
      OneOrMore(kept, told);
    }
  }

  lemma OneOrMore(kept: set<string>, told: set<string>)
    requires kept <= told
    ensures kept + {} == kept && kept + told == told
    ensures |kept| == 1 && |told| == 1 ==> kept == told
  {
    if |kept| == 1 && |told| == 1 { SubsetOfOne(kept, told); }
  }

  /** From any store, a payload sent a third time changes nothing. */
  lemma ThirdPostIsQuiet(catalogue: Maps, clock: Clock, st: State, sales: seq<SaleInput>)
    ensures var twice := Post(catalogue, clock, Post(catalogue, clock, st, sales), sales);
      SameStore(Post(catalogue, clock, twice, sales), twice)
  {
    var once := Post(catalogue, clock, st, sales);
    IngestIsRebuild(Lookups(catalogue, st.ledger), clock, st, sales);
    assert once.ledger == IngestLedger(Lookups(catalogue, st.ledger), st.ledger, sales);
    hide Post, Settles, Forgets, Lookups, IngestLedger, SameStore, Rebuild;
    forall key ensures !Settles(catalogue, once.ledger, sales, key) && !Forgets(catalogue, once.ledger, sales, key) {
      SettledAfter(catalogue, st.ledger, sales, key);
    }
    RepostIsQuiet(catalogue, clock, once, sales);
  }

  /** A stored receipt and a receipt of a payload that both name the code "x". */
  function HandMatched(id: string, productId: string): Sale {
    Sale(id, 0, "", PHYSICAL, [StoredLine("x", 1.0, 0.0, 0.0, Some(productId))])
  }

  function Naming(id: string): SaleInput { SaleInput(id, 0, "till", "", "", [LineInput("x", None, 1.0, None, None)]) }

  lemma ToldByOne(id: string, productId: string)
    requires productId != ""
    ensures Told(Blank().norm, [HandMatched(id, productId)], "x") == {productId}
  {
    var ledger := [HandMatched(id, productId)];
    assert ledger[1..] == [] && HandMatched(id, productId).lines[1..] == [];
    assert MatchesOf(ledger) == [MatchedLine("x", Some(productId))];
  }

  /** A payload sent again can change the ledger: two receipts match "x" to different products, so the
      first request stores its line unmatched, and the second finds only the other match left. */
  lemma RepostSettlesACode(clock: Clock)
    ensures var st := State([HandMatched("one", "p"), HandMatched("two", "q")], []);
      var once := Post(Blank(), clock, st, [Naming("one")]);
      Post(Blank(), clock, once, [Naming("one")]).ledger != once.ledger
  {
    var ledger, sales := [HandMatched("one", "p"), HandMatched("two", "q")], [Naming("one")];
    assert ledger == [HandMatched("one", "p")] + [HandMatched("two", "q")];
    assert ledger[1..] == [HandMatched("two", "q")] && ledger[1..][1..] == [];
    assert "one" in Ids(sales) && "two" !in Ids(sales) by { assert Naming("one") in sales; }
    assert Kept(ledger, sales) == [HandMatched("two", "q")];
    ToldByOne("one", "p");
    ToldByOne("two", "q");
    ToldConcat(Blank().norm, [HandMatched("one", "p")], [HandMatched("two", "q")], "x");
    TwoAreTwo("p", "q");
    assert Settles(Blank(), ledger, sales, "x");
    NamedInPayload("one");
    RepostExact(Blank(), clock, State(ledger, []), sales);
  }

  lemma TwoAreTwo(a: string, b: string)
    requires a != b
    ensures |{a} + {b}| == 2
  {}

  lemma NamedInPayload(id: string)
    ensures "x" in PayloadCodes(Blank(), [Naming(id)])
  {
    var s := Naming(id);
    assert [s][..0] == [] && [s][1..] == [];
    assert Dedupe([s]) == [s];
    assert |Blank().norm(s.channel)| == 4 && |Blank().norm(s.createdBy)| == 0;
    assert !IsOnline(Blank(), s);
    FilterAll([s], Physical(Blank()));
    assert s in Chosen(Blank(), [s]);
    assert s.lines[0] in s.lines && Blank().norm(s.lines[0].sku) == "x";
  }

  /** A repair learns from a ledger it leaves alone, so repairing again changes nothing. */
  lemma RepairAgainIsQuiet(catalogue: Maps, clock: Clock, st: State, trailingDays: nat, now: int)
    ensures var once := Heal(Lookups(catalogue, st.ledger), clock, st, trailingDays, now);
      Heal(Lookups(catalogue, once.ledger), clock, once, trailingDays, now) == once
  {
    HealTwiceIsOnce(Lookups(catalogue, st.ledger), clock, st, trailingDays, now);
  }

  /** A payload and a re-post of its tail: while the head settles and forgets no code, the second request
      reads what the first did, so they agree with the whole as far as they do with fixed lookups. */
  lemma PostedPartsAgree(catalogue: Maps, clock: Clock, st: State, xs: seq<SaleInput>, ys: seq<SaleInput>)
    requires forall key :: !Settles(catalogue, st.ledger, xs, key) && !Forgets(catalogue, st.ledger, xs, key)
    ensures var maps := Lookups(catalogue, st.ledger);
      var a, b := Post(catalogue, clock, st, xs + ys), Post(catalogue, clock, Post(catalogue, clock, st, xs), ys);
      && b == Ingest(maps, clock, Ingest(maps, clock, st, xs), ys)
      && multiset(a.ledger) == multiset(b.ledger)
      && (Agrees(maps, clock, st) ==> multiset(a.history) == multiset(b.history))
  {
    var maps := Lookups(catalogue, st.ledger);
    RepostExact(catalogue, clock, st, xs);
    PartsAgreeWithWhole(maps, clock, st, xs, ys, 0);
    if Agrees(maps, clock, st) { PartsAgreeAltogether(maps, clock, st, xs, ys); }
  }

  // ---------------------------------------------------------------- the request as a whole

  /** One feed request: learns from the stored lines, before any is deleted, and ingests. */
  method IngestRequest(feed: Feed, catalogue: Maps, clock: Clock, sales: seq<SaleInput>)
    returns (result: IngestResult)
    requires RealClock(clock)
    modifies feed, feed.table
    ensures feed.StateOf() == Post(catalogue, clock, old(feed.StateOf()), sales)
    ensures Reports(Lookups(catalogue, old(feed.ledger)), sales, result)
  {
    var known := new MatchMap(catalogue.skuToProductId);
    known.MergeLearned(MatchesOf(feed.ledger), catalogue.norm);
    LearnedIsLearn(catalogue.skuToProductId, known.productIds, MatchesOf(feed.ledger), catalogue.norm);
    result := feed.IngestPosSales(catalogue.(skuToProductId := known.productIds), clock, sales);
  }
}