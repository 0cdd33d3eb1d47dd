/** removeDuplicates: a single left-to-right pass that keeps the first record of every identifier. */
module Dedup {
  import opened Records

  /** One turn of the loop: keep item unless a kept record already has its identifier. */
  function Step(kept: seq<Record>, item: Record): seq<Record>
  {
    if Key(item) in KeysOf(kept) then kept else kept + [item]
  }

  /** The loop run over items, starting from the records already kept. */
  function Scan(kept: seq<Record>, items: seq<Record>): seq<Record>
    decreases |items|
  {
    if items == [] then kept
    else Step(Scan(kept, items[..|items| - 1]), items[|items| - 1])
  }

  /** What removeDuplicates returns for data. */
  function Deduplicated(data: seq<Record>): seq<Record>
  {
    Scan([], data)
  }

  /** The loop of removeDuplicates, with its set of seen identifiers and its output array. */
  method RemoveDuplicates(data: seq<Record>) returns (uniqueData: seq<Record>)
    ensures uniqueData == Deduplicated(data)
    ensures KeysDistinct(uniqueData)
  {
    uniqueData := [];
    var dataSet: set<string> := {};
    for i := 0 to |data|
      invariant uniqueData == Scan([], data[..i])
      invariant dataSet == KeysOf(uniqueData)
    {
      var item := data[i];
      var identifier := Key(item);
      if identifier !in dataSet {
        KeysOfAppend(uniqueData, [item]);
        dataSet := dataSet + {identifier};
        uniqueData := uniqueData + [item];
      }
      assert data[..i + 1][..i] == data[..i];
    }
    assert data[..|data|] == data;
    DeduplicatedDistinct(data);
  }

  // Properties of Scan, each by induction on the number of items processed.

  /** The records already kept stay, in place, at the front; at most one record is added per item. */
  lemma {:induction false} ScanPrefix(kept: seq<Record>, items: seq<Record>)
    ensures |kept| <= |Scan(kept, items)| <= |kept| + |items|
    ensures Scan(kept, items)[..|kept|] == kept
  {
    if items != [] {
      ScanPrefix(kept, items[..|items| - 1]);
    }
  }

  /** The identifiers of the output are those of the kept records and of the items. */
  lemma {:induction false} ScanKeys(kept: seq<Record>, items: seq<Record>)
    ensures KeysOf(Scan(kept, items)) == KeysOf(kept) + KeysOf(items)
  {
    if items != [] {
      var init, last := items[..|items| - 1], items[|items| - 1];
      assert items == init + [last];
      ScanKeys(kept, init);
      KeysOfAppend(init, [last]);
      KeysOfAppend(Scan(kept, init), [last]);
    }
  }

  /** A pass never introduces a second record for an identifier. */
  lemma {:induction false} ScanDistinct(kept: seq<Record>, items: seq<Record>)
    requires KeysDistinct(kept)
    ensures KeysDistinct(Scan(kept, items))
  {
    if items != [] {
      var init, last := items[..|items| - 1], items[|items| - 1];
      var prev := Scan(kept, init);
      ScanDistinct(kept, init);
      if Key(last) !in KeysOf(prev) {
        forall i | 0 <= i < |prev| ensures Key(prev[i]) != Key(last) {
          KeysOfIndex(prev, i);
        }
      }
    }
  }

  /** What a pass adds behind the kept records is a subsequence of the items,
      made of records whose identifiers the kept records lack. */
  lemma {:induction false} ScanTail(kept: seq<Record>, items: seq<Record>)
    ensures |kept| <= |Scan(kept, items)|
    ensures IsSubsequence(Scan(kept, items)[|kept|..], items)
    ensures forall j :: |kept| <= j < |Scan(kept, items)| ==> Key(Scan(kept, items)[j]) !in KeysOf(kept)
  {
    ScanPrefix(kept, items);
    if items != [] {
      var init, last := items[..|items| - 1], items[|items| - 1];
      var prev := Scan(kept, init);
      ScanTail(kept, init);
      ScanKeys(kept, init);
      if Key(last) !in KeysOf(prev) {
        var tail := prev[|kept|..];
        assert Scan(kept, items)[|kept|..] == tail + [last];
        assert (tail + [last])[..|tail|] == tail;
      }
    }
  }

  /** Every record a pass adds is the first item with its identifier. */
  lemma {:induction false} ScanFirstWins(kept: seq<Record>, items: seq<Record>)
    ensures forall j :: |kept| <= j < |Scan(kept, items)| ==> FirstOfItsKey(items, Scan(kept, items)[j])
  {
    if items != [] {
      var init, last := items[..|items| - 1], items[|items| - 1];
      var prev := Scan(kept, init);
      var r := Scan(kept, items);
      assert items == init + [last];
      ScanFirstWins(kept, init);
      forall j | |kept| <= j < |r| ensures FirstOfItsKey(items, r[j]) {
        if j < |prev| {
          FirstOfItsKeyAppend(init, [last], prev[j]);
        } else {
          ScanKeys(kept, init);
          FirstOfItsKeyLast(init, last);
        }
      }
    }
  }

  /** Items whose identifiers are all kept already change nothing. */
  lemma {:induction false} ScanCovered(kept: seq<Record>, items: seq<Record>)
    requires KeysOf(items) <= KeysOf(kept)
    ensures Scan(kept, items) == kept
  {
    if items != [] {
      var init, last := items[..|items| - 1], items[|items| - 1];
      assert items == init + [last];
      KeysOfAppend(init, [last]);
      ScanCovered(kept, init);
    }
  }

  /** A pass over a + b is a pass over a followed by a pass over b. */
  lemma {:induction false} ScanAppend(kept: seq<Record>, a: seq<Record>, b: seq<Record>)
    ensures Scan(kept, a + b) == Scan(Scan(kept, a), b)
    decreases |b|
  {
    if b == [] {
      assert a + b == a;
    } else {
      assert (a + b)[..|a + b| - 1] == a + b[..|b| - 1];
      ScanAppend(kept, a, b[..|b| - 1]);
    }
  }

  /** A pass that keeps every item appends all of them. */
  lemma {:induction false} ScanKeepsAll(kept: seq<Record>, items: seq<Record>)
    requires |Scan(kept, items)| == |kept| + |items|
    ensures Scan(kept, items) == kept + items
  {
    if items != [] {
      var init, last := items[..|items| - 1], items[|items| - 1];
      ScanPrefix(kept, init);
      ScanKeepsAll(kept, init);
      assert kept + items == kept + init + [last];
    }
  }

  // Properties of removeDuplicates.

  /** No two output records share an identifier. */
  lemma DeduplicatedDistinct(data: seq<Record>)
    ensures KeysDistinct(Deduplicated(data))
  {
    ScanDistinct([], data);
  }

  /** Every identifier of the input occurs in the output and no other one does. */
  lemma DeduplicatedKeys(data: seq<Record>)
    ensures KeysOf(Deduplicated(data)) == KeysOf(data)
  {
    ScanKeys([], data);
  }

  /** The output is the input with some records deleted, in the input's order. */
  lemma DeduplicatedOrder(data: seq<Record>)
    ensures IsSubsequence(Deduplicated(data), data)
  {
    ScanTail([], data);
    assert Deduplicated(data)[0..] == Deduplicated(data);
  }

  /** The record kept for an identifier is the first input record with that identifier. */
  lemma DeduplicatedFirstWins(data: seq<Record>)
    ensures forall j :: 0 <= j < |Deduplicated(data)| ==> FirstOfItsKey(data, Deduplicated(data)[j])
  {
    ScanFirstWins([], data);
  }

  /** Input whose identifiers are already distinct comes back unchanged. */
  lemma {:induction false} DeduplicatedFixpoint(data: seq<Record>)
    requires KeysDistinct(data)
    ensures Deduplicated(data) == data
  {
    if data != [] {
      var init, last := data[..|data| - 1], data[|data| - 1];
      assert KeysDistinct(init);
      DeduplicatedFixpoint(init);
      assert forall r | r in init :: Key(r) != Key(last) by {
        assert forall i | 0 <= i < |init| :: Key(init[i]) != Key(data[|data| - 1]);
      }
      assert init + [last] == data;
    }
  }

  /** Removing duplicates twice is the same as removing them once. */
  lemma DeduplicatedIdempotent(data: seq<Record>)
    ensures Deduplicated(Deduplicated(data)) == Deduplicated(data)
  {
    DeduplicatedDistinct(data);
    DeduplicatedFixpoint(Deduplicated(data));
  }

  /** The output is never longer than the input, and is as long exactly when
      the input's identifiers are distinct. */
  lemma DeduplicatedLength(data: seq<Record>)
    ensures |Deduplicated(data)| <= |data|
    ensures |Deduplicated(data)| == |data| <==> KeysDistinct(data)
  {
    ScanPrefix([], data);
    if |Deduplicated(data)| == |data| {
      ScanKeepsAll([], data);
      assert [] + data == data;
      DeduplicatedDistinct(data);
    }
    if KeysDistinct(data) {
      DeduplicatedFixpoint(data);
    }
  }

  /** Two different villages whose ids run together to the same identifier: removeDuplicates
      keeps the first and drops the second. */
  lemma CollisionDropsVillage()
    ensures var a := Record("1-2", "", "3", "", "4", "", "5", "Alpha");
            var b := Record("1", "", "2-3", "", "4", "", "5", "Beta");
            a.districtId != b.districtId && Deduplicated([a, b]) == [a]
  {
    var a := Record("1-2", "", "3", "", "4", "", "5", "Alpha");
    var b := Record("1", "", "2-3", "", "4", "", "5", "Beta");
    assert Key(a) == "1-2-3-4-5" == Key(b);
    assert [a][..0] == [];
    assert Scan([], [a]) == [a];
    assert [a, b][..1] == [a];
    assert Key(b) in KeysOf([a]);
    assert Scan([], [a, b]) == Step([a], b);
  }
}
