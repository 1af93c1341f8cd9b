/** The till codes packages/pos/src/ingest.ts learns from matches people made by hand. */
module LearnedAliases {
  import opened Wrappers

  datatype MatchedLine = MatchedLine(sku: string, productId: Option<string>)

  predicate Speaks(row: MatchedLine, normalize: string -> string, key: string) {
    row.productId.Some? && row.productId.value != "" && normalize(row.sku) == key
  }

  /** The products a code was matched to by hand. */
  function MatchedTo(history: seq<MatchedLine>, normalize: string -> string, key: string): set<string> {
    set row | row in history && Speaks(row, normalize, key) :: row.productId.value
  }

  ghost predicate Teaches(history: seq<MatchedLine>, normalize: string -> string, key: string, productId: string) {
    key != "" && MatchedTo(history, normalize, key) == {productId}
  }

  /** What the map must be after learning: known codes untouched, an unknown code added exactly when
      every hand match of it names one and the same product. */
  ghost predicate Learned(before: map<string, string>, after: map<string, string>, history: seq<MatchedLine>,
                          normalize: string -> string) {
    && (forall key :: key in before ==> key in after && after[key] == before[key])
    && (forall key :: key in after && key !in before ==> Teaches(history, normalize, key, after[key]))
    && (forall key, productId :: key !in before && Teaches(history, normalize, key, productId) ==> key in after)
  }

  class MatchMap {
    var productIds: map<string, string>

    constructor (known: map<string, string>)
      ensures productIds == known
    {
      productIds := known;
    }

    method MergeLearned(history: seq<MatchedLine>, normalize: string -> string)
      modifies this
      ensures Learned(old(productIds), productIds, history, normalize)
    {
      var byKey := GroupByKey(history, normalize);
      ghost var known := productIds;
      var todo := byKey.Keys;
      while todo != {}
        invariant todo <= byKey.Keys
        invariant forall key :: key in known ==> key in productIds && productIds[key] == known[key]
        invariant forall key :: key in productIds && key !in known ==> key in byKey && byKey[key] == {productIds[key]}
        invariant forall key :: key in byKey && key !in todo && |byKey[key]| == 1 ==> key in productIds
      {
        var key :| key in todo;
        if |byKey[key]| == 1 {
          var productId :| productId in byKey[key];
          Singleton(byKey[key], productId);
          productIds := productIds[key := productId];
        }
        todo := todo - {key};
      }
      forall key, productId | key !in known && Teaches(history, normalize, key, productId) ensures key in productIds {
        assert productId in MatchedTo(history, normalize, key);
      }
    }

    /** The products each code without an exact product was matched to. */
    method GroupByKey(history: seq<MatchedLine>, normalize: string -> string) returns (byKey: map<string, set<string>>)
      ensures forall key ::
        key in byKey <==> key != "" && key !in productIds && MatchedTo(history, normalize, key) != {}
      ensures forall key :: key in byKey ==> byKey[key] == MatchedTo(history, normalize, key)
    {
      NothingMatched(normalize);
      hide MatchedTo;
      byKey := map[];
      for i := 0 to |history|
        invariant forall key ::
          key in byKey <==> key != "" && key !in productIds && MatchedTo(history[..i], normalize, key) != {}
        invariant forall key :: key in byKey ==> byKey[key] == MatchedTo(history[..i], normalize, key)
      {
        var row := history[i];
        MatchedStep(history, normalize, i);
        if row.productId.Some? && row.productId.value != "" {
          var key := normalize(row.sku);
          if key != "" && key !in productIds {
            byKey := byKey[key := (if key in byKey then byKey[key] else {}) + {row.productId.value}];
          }
        }
      }
      assert history[..|history|] == history;
    }
  }

  lemma NothingMatched(normalize: string -> string)
    ensures forall key :: MatchedTo([], normalize, key) == {}
  {}

  lemma MatchedStep(history: seq<MatchedLine>, normalize: string -> string, i: nat)
    requires i < |history|
    ensures forall key :: MatchedTo(history[..i + 1], normalize, key) ==
              MatchedTo(history[..i], normalize, key)
                + (if Speaks(history[i], normalize, key) then {history[i].productId.value} else {})
  {
    assert history[..i + 1] == history[..i] + [history[i]];
  }

  lemma Singleton(s: set<string>, x: string)
    requires |s| == 1 && x in s
    ensures s == {x}
  {
    assert |s - {x}| == 0;
  }

  /** What is learned depends only on which matches were made, not on their order or number. */
  lemma LearningIgnoresOrder(before: map<string, string>, first: map<string, string>, second: map<string, string>,
                             history: seq<MatchedLine>, reordered: seq<MatchedLine>, normalize: string -> string)
    requires forall row :: row in history <==> row in reordered
    requires Learned(before, first, history, normalize) && Learned(before, second, reordered, normalize)
    ensures first == second
  {
    forall key ensures MatchedTo(history, normalize, key) == MatchedTo(reordered, normalize, key) {}
    forall key | key in first || key in second ensures key in first && key in second && first[key] == second[key] {
      if key !in before {
        if key in first { assert Teaches(reordered, normalize, key, first[key]); }
        if key in second { assert Teaches(history, normalize, key, second[key]); }
        assert {first[key]} == {second[key]};
        assert first[key] in {second[key]};
      }
    }
  }

  /** Learning the same history again adds nothing. */
  lemma LearningTwiceIsOnce(before: map<string, string>, once: map<string, string>, twice: map<string, string>,
                            history: seq<MatchedLine>, normalize: string -> string)
    requires Learned(before, once, history, normalize) && Learned(once, twice, history, normalize)
    ensures twice == once
  {
    assert forall key :: key in twice ==> key in once;
  }

  // ---------------------------------------------------------------- what is learned

  ghost function TheOne(s: set<string>): (x: string)
    ensures |s| == 1 ==> s == {x}
  {
    if |s| == 1 then
      var x :| x in s;
      Singleton(s, x);
      x
    else ""
  }

  function Codes(history: seq<MatchedLine>, normalize: string -> string): set<string> {
    set row | row in history :: normalize(row.sku)
  }

  /** The map after learning. */
  ghost function Learn(known: map<string, string>, history: seq<MatchedLine>, normalize: string -> string)
    : map<string, string> {
    map key | key in known.Keys + Codes(history, normalize)
      && (key in known || (key != "" && |MatchedTo(history, normalize, key)| == 1))
      :: if key in known then known[key] else TheOne(MatchedTo(history, normalize, key))
  }

  lemma LearnIsLearned(known: map<string, string>, history: seq<MatchedLine>, normalize: string -> string)
    ensures Learned(known, Learn(known, history, normalize), history, normalize)
  {
    forall key, productId | key !in known && Teaches(history, normalize, key, productId)
      ensures key in Learn(known, history, normalize)
    {
      assert productId in MatchedTo(history, normalize, key);
    }
  }

  /** The loops of the class learn exactly that map. */
  lemma LearnedIsLearn(known: map<string, string>, after: map<string, string>, history: seq<MatchedLine>,
                       normalize: string -> string)
    requires Learned(known, after, history, normalize)
    ensures after == Learn(known, history, normalize)
  {
    LearnIsLearned(known, history, normalize);
    LearningIgnoresOrder(known, after, Learn(known, history, normalize), history, history, normalize);
  }
}
