/** Village records and the string identifier that removeDuplicates keys them by. */
module Records {

  /** One village record, as scrapeVillages builds it and extracted_villages.json stores it.
      Every field is a string; a selector miss is just some string here. */
  datatype Record = Record(
    districtId: string, districtValue: string,
    talukId: string, talukValue: string,
    hobliId: string, hobliValue: string,
    villageId: string, villageValue: string)

  /** The identifier removeDuplicates builds from a record: its four ids joined by "-". */
  function Key(r: Record): string
  {
    r.districtId + "-" + r.talukId + "-" + r.hobliId + "-" + r.villageId
  }

  /** The set of identifiers of the records in s. */
  function KeysOf(s: seq<Record>): set<string>
  {
    set r | r in s :: Key(r)
  }

  /** No two records of s share an identifier. */
  predicate KeysDistinct(s: seq<Record>)
  {
    forall i, j :: 0 <= i < j < |s| ==> Key(s[i]) != Key(s[j])
  }

  /** The position of the first record of s whose identifier is k. */
  ghost function FirstIndex(s: seq<Record>, k: string): (i: nat)
    requires k in KeysOf(s)
    ensures i < |s| && Key(s[i]) == k
    ensures forall j :: 0 <= j < i ==> Key(s[j]) != k
  {
    if Key(s[0]) == k then 0
    else
      assert k in KeysOf(s[1..]) by {
        var r :| r in s && Key(r) == k;
        assert s == [s[0]] + s[1..];
      }
      1 + FirstIndex(s[1..], k)
  }

  /** r is obtained from s by deleting elements, the rest keeping their order. */
  ghost predicate IsSubsequence<T>(r: seq<T>, s: seq<T>)
    decreases |s|
  {
    if s == [] then r == []
    else IsSubsequence(r, s[..|s| - 1])
         || (r != [] && r[|r| - 1] == s[|s| - 1] && IsSubsequence(r[..|r| - 1], s[..|s| - 1]))
  }

  lemma KeysOfAppend(a: seq<Record>, b: seq<Record>)
    ensures KeysOf(a + b) == KeysOf(a) + KeysOf(b)
  {
    forall k | k in KeysOf(a + b) ensures k in KeysOf(a) + KeysOf(b) {
      var r :| r in a + b && Key(r) == k;
    }
    forall k | k in KeysOf(a) + KeysOf(b) ensures k in KeysOf(a + b) {
      if k in KeysOf(a) {
        var r :| r in a && Key(r) == k;
        assert r in a + b;
      } else {
        var r :| r in b && Key(r) == k;
        assert r in a + b;
      }
    }
  }

  lemma KeysOfIndex(s: seq<Record>, i: int)
    requires 0 <= i < |s|
    ensures Key(s[i]) in KeysOf(s)
  {
  }

  /** The first position of k does not move when records are appended behind s,
      and a k that s lacks is found first inside the appended part. */
  lemma FirstIndexAppend(a: seq<Record>, b: seq<Record>, k: string)
    requires k in KeysOf(a + b)
    ensures k in KeysOf(a) ==> FirstIndex(a + b, k) == FirstIndex(a, k)
    ensures k !in KeysOf(a) ==> k in KeysOf(b) && FirstIndex(a + b, k) == |a| + FirstIndex(b, k)
  {
    KeysOfAppend(a, b);
    var i := FirstIndex(a + b, k);
    if k in KeysOf(a) {
      var i' := FirstIndex(a, k);
      assert Key((a + b)[i']) == k;
    } else {
      var i' := FirstIndex(b, k);
      assert Key((a + b)[|a| + i']) == k;
      assert forall j :: 0 <= j < |a| ==> Key((a + b)[j]) in KeysOf(a);
    }
  }

  /** r is the first record of s with its identifier. */
  ghost predicate FirstOfItsKey(s: seq<Record>, r: Record)
  {
    Key(r) in KeysOf(s) && r == s[FirstIndex(s, Key(r))]
  }

  /** Appending records behind s does not change which record comes first for an identifier of s. */
  lemma FirstOfItsKeyAppend(a: seq<Record>, b: seq<Record>, r: Record)
    requires FirstOfItsKey(a, r)
    ensures FirstOfItsKey(a + b, r)
  {
    KeysOfAppend(a, b);
    FirstIndexAppend(a, b, Key(r));
  }

  /** A record appended behind s whose identifier s lacks is the first with that identifier. */
  lemma FirstOfItsKeyLast(s: seq<Record>, x: Record)
    requires Key(x) !in KeysOf(s)
    ensures FirstOfItsKey(s + [x], x)
  {
    KeysOfAppend(s, [x]);
    FirstIndexAppend(s, [x], Key(x));
  }

  /** Which part of a + b the first record of an identifier comes from. */
  lemma FirstOfItsKeySplit(a: seq<Record>, b: seq<Record>, r: Record)
    requires FirstOfItsKey(a + b, r)
    ensures Key(r) in KeysOf(a) ==> FirstOfItsKey(a, r)
    ensures Key(r) !in KeysOf(a) ==> FirstOfItsKey(b, r)
  {
    FirstIndexAppend(a, b, Key(r));
  }

  /** Records that agree on the four ids get the same identifier. */
  lemma SameIdsSameKey(a: Record, b: Record)
    requires a.districtId == b.districtId && a.talukId == b.talukId
    requires a.hobliId == b.hobliId && a.villageId == b.villageId
    ensures Key(a) == Key(b)
  {
  }

  /** The converse fails: ids that contain "-" let two different id tuples share one identifier
      (Dedup.CollisionDropsVillage shows removeDuplicates then dropping the second village). */
  lemma KeyCollision()
    ensures exists a: Record, b: Record ::
      (a.districtId, a.talukId, a.hobliId, a.villageId) != (b.districtId, b.talukId, b.hobliId, b.villageId)
      && Key(a) == Key(b)
  {
    var a := Record("1-2", "", "3", "", "4", "", "5", "");
    var b := Record("1", "", "2-3", "", "4", "", "5", "");
    assert a.districtId != b.districtId;
    assert Key(a) == "1-2-3-4-5" == Key(b);
  }

  /** Splitting x + "-" + y at its last "-" recovers x and y when y holds no "-". */
  lemma SplitAtLastDash(x: string, y: string, u: string, v: string)
    requires '-' !in y && '-' !in v
    requires x + "-" + y == u + "-" + v
    ensures x == u && y == v
  {
    var s := x + "-" + y;
    assert |y| == |v| by {
      assert s[|x|] == '-' && s[|u|] == '-';
      assert forall j :: |x| < j < |s| ==> s[j] == y[j - |x| - 1];
      assert forall j :: |u| < j < |s| ==> s[j] == v[j - |u| - 1];
    }
    assert x == s[..|x|];
    assert u == s[..|u|];
    assert y == s[|x| + 1..];
    assert v == s[|u| + 1..];
  }

  /** Ids without "-": two records share an identifier exactly when they share the four ids. */
  lemma KeyInjectiveWithoutDash(a: Record, b: Record)
    requires '-' !in a.talukId && '-' !in a.hobliId && '-' !in a.villageId
    requires '-' !in b.talukId && '-' !in b.hobliId && '-' !in b.villageId
    ensures Key(a) == Key(b) <==>
      a.districtId == b.districtId && a.talukId == b.talukId
      && a.hobliId == b.hobliId && a.villageId == b.villageId
  {
    if Key(a) == Key(b) {
      SplitAtLastDash(a.districtId + "-" + a.talukId + "-" + a.hobliId, a.villageId,
                      b.districtId + "-" + b.talukId + "-" + b.hobliId, b.villageId);
      SplitAtLastDash(a.districtId + "-" + a.talukId, a.hobliId,
                      b.districtId + "-" + b.talukId, b.hobliId);
      SplitAtLastDash(a.districtId, a.talukId, b.districtId, b.talukId);
    }
  }
}
