/** `OrderBy(r => r.Name)` on a list of resources: a stable sort by name. Names compare
    ordinally, character code by character code, a proper prefix first. */
module NameOrder {
  import opened Guids
  import opened ResourceDtos

  /** Ordinal string order: `a` sorts strictly before `b`. */
  predicate Less(a: string, b: string)
  {
    if a == [] then b != []
    else if b == [] then false
    else a[0] < b[0] || (a[0] == b[0] && Less(a[1..], b[1..]))
  }

  lemma {:induction false} LessIrreflexive(a: string)
    ensures !Less(a, a)
  {
    if a != [] { LessIrreflexive(a[1..]); }
  }

  lemma {:induction false} LessTransitive(a: string, b: string, c: string)
    requires Less(a, b) && Less(b, c)
    ensures Less(a, c)
  {
    if a != [] && b != [] && c != [] && a[0] == b[0] == c[0] {
      LessTransitive(a[1..], b[1..], c[1..]);
    }
  }

  /** Any two different names are ordered one way or the other. */
  lemma {:induction false} LessTotal(a: string, b: string)
    ensures a == b || Less(a, b) || Less(b, a)
  {
    if a != [] && b != [] && a[0] == b[0] {
      LessTotal(a[1..], b[1..]);
      if a[1..] == b[1..] { assert a == [a[0]] + a[1..] && b == [b[0]] + b[1..]; }
    }
  }

  predicate SortedByName(s: seq<ResourceDto>)
  {
    forall i, j | 0 <= i < j < |s| :: !Less(s[j].name, s[i].name)
  }

  /** The entries named `n`, in list order. */
  function WithName(s: seq<ResourceDto>, n: string): seq<ResourceDto>
  {
    if s == [] then [] else (if s[0].name == n then [s[0]] else []) + WithName(s[1..], n)
  }

  lemma {:induction false} WithNameConcat(a: seq<ResourceDto>, b: seq<ResourceDto>, n: string)
    ensures WithName(a + b, n) == WithName(a, n) + WithName(b, n)
  {
    if a == [] {
      assert a + b == b;
    } else {
      var head := if a[0].name == n then [a[0]] else [];
      assert (a + b)[0] == a[0] && (a + b)[1..] == a[1..] + b;
      WithNameConcat(a[1..], b, n);
      calc {
        WithName(a + b, n);
        head + WithName(a[1..] + b, n);
        head + (WithName(a[1..], n) + WithName(b, n));
        (head + WithName(a[1..], n)) + WithName(b, n);
        WithName(a, n) + WithName(b, n);
      }
    }
  }

  lemma WithNameSingle(x: ResourceDto, n: string)
    ensures WithName([x], n) == if x.name == n then [x] else []
  {
    var one := [x];
    assert one[0] == x && one[1..] == [];
    assert WithName(one[1..], n) == [];
  }

  /** A list with no entry named `n` has none to keep. */
  lemma {:induction false} WithNameNone(s: seq<ResourceDto>, n: string)
    requires forall i | 0 <= i < |s| :: s[i].name != n
    ensures WithName(s, n) == []
  {
    if s != [] { WithNameNone(s[1..], n); }
  }

  /** Where a stable sort puts `x` among the sorted `s`: after every entry whose name does not
      sort after x's, before the first one whose name does. */
  function InsertPosition(s: seq<ResourceDto>, x: ResourceDto): (k: nat)
    ensures k <= |s|
    ensures forall i | 0 <= i < k :: !Less(x.name, s[i].name)
    ensures k < |s| ==> Less(x.name, s[k].name)
  {
    if s == [] then 0
    else if Less(x.name, s[0].name) then 0
    else 1 + InsertPosition(s[1..], x)
  }

  function Insert(s: seq<ResourceDto>, x: ResourceDto): (r: seq<ResourceDto>)
    requires SortedByName(s)
    ensures SortedByName(r)
    ensures multiset(r) == multiset(s) + multiset{x}
    ensures forall n :: WithName(r, n) == WithName(s, n) + WithName([x], n)
    ensures IdsOf(r) == IdsOf(s) + {x.id}
    ensures DistinctIds(s) && x.id !in IdsOf(s) ==> DistinctIds(r)
  {
    var k := InsertPosition(s, x);
    InsertProperties(s, x, k);
    s[..k] + [x] + s[k..]
  }

  lemma InsertProperties(s: seq<ResourceDto>, x: ResourceDto, k: nat)
    requires SortedByName(s) && k == InsertPosition(s, x)
    ensures SortedByName(s[..k] + [x] + s[k..])
    ensures multiset(s[..k] + [x] + s[k..]) == multiset(s) + multiset{x}
    ensures forall n :: WithName(s[..k] + [x] + s[k..], n) == WithName(s, n) + WithName([x], n)
    ensures IdsOf(s[..k] + [x] + s[k..]) == IdsOf(s) + {x.id}
    ensures DistinctIds(s) && x.id !in IdsOf(s) ==> DistinctIds(s[..k] + [x] + s[k..])
  {
    assert s == s[..k] + s[k..];
    AfterPositionGreater(s, x, k);
    InsertSorted(s, x, k);
    forall n ensures WithName(s[..k] + [x] + s[k..], n) == WithName(s, n) + WithName([x], n) {
      InsertWithName(s, x, k, n);
    }
    IdsOfSplit(s, x, k);
  }

  /** Every entry from the insert position on sorts strictly after x. */
  lemma AfterPositionGreater(s: seq<ResourceDto>, x: ResourceDto, k: nat)
    requires SortedByName(s) && k == InsertPosition(s, x)
    ensures forall j | k <= j < |s| :: Less(x.name, s[j].name)
  {
    forall j | k <= j < |s| ensures Less(x.name, s[j].name) {
      if j > k {
        LessTotal(s[k].name, s[j].name);
        if s[k].name != s[j].name { LessTransitive(x.name, s[k].name, s[j].name); }
      }
    }
  }

  lemma InsertSorted(s: seq<ResourceDto>, x: ResourceDto, k: nat)
    requires SortedByName(s) && k <= |s|
    requires forall i | 0 <= i < k :: !Less(x.name, s[i].name)
    requires forall j | k <= j < |s| :: Less(x.name, s[j].name)
    ensures SortedByName(s[..k] + [x] + s[k..])
  {
    var r := s[..k] + [x] + s[k..];
    forall i, j | 0 <= i < j < |r| ensures !Less(r[j].name, r[i].name) {
      if j == k {
        assert r[i] == s[i];
      } else if i == k {
        assert r[j] == s[j - 1];
        if Less(r[j].name, r[i].name) {
          LessTransitive(x.name, s[j - 1].name, x.name);
          LessIrreflexive(x.name);
        }
      } else {
        var i', j' := if i < k then i else i - 1, if j < k then j else j - 1;
        assert r[i] == s[i'] && r[j] == s[j'];
      }
    }
  }

  lemma InsertWithName(s: seq<ResourceDto>, x: ResourceDto, k: nat, n: string)
    requires k <= |s|
    requires forall j | k <= j < |s| :: Less(x.name, s[j].name)
    ensures WithName(s[..k] + [x] + s[k..], n) == WithName(s, n) + WithName([x], n)
  {
    var front, back := s[..k], s[k..];
    assert s == front + back;
    if x.name == n {
      forall j | 0 <= j < |back| ensures back[j].name != n {
        assert back[j] == s[k + j];
        LessIrreflexive(n);
      }
      WithNameNone(back, n);
    }
    WithNameMiddle(front, x, back, n);
  }

  /** Putting x between two lists adds it to the entries named n at the end, provided no
      entry named n follows it. */
  lemma WithNameMiddle(front: seq<ResourceDto>, x: ResourceDto, back: seq<ResourceDto>, n: string)
    requires x.name == n ==> WithName(back, n) == []
    ensures WithName(front + [x] + back, n) == WithName(front + back, n) + WithName([x], n)
  {
    WithNameConcat(front + [x], back, n);
    WithNameConcat(front, [x], n);
    WithNameConcat(front, back, n);
    WithNameSingle(x, n);
  }

  lemma IdsOfSplit(s: seq<ResourceDto>, x: ResourceDto, k: nat)
    requires k <= |s|
    ensures IdsOf(s[..k] + [x] + s[k..]) == IdsOf(s) + {x.id}
    ensures DistinctIds(s) && x.id !in IdsOf(s) ==> DistinctIds(s[..k] + [x] + s[k..])
  {
    var r := s[..k] + [x] + s[k..];
    assert r[k] == x;
    forall y | y in IdsOf(s) ensures y in IdsOf(r) {
      var i :| 0 <= i < |s| && s[i].id == y;
      if i < k { assert r[i] == s[i]; } else { assert r[i + 1] == s[i]; }
    }
    forall y | y in IdsOf(r) ensures y in IdsOf(s) + {x.id} {
      var i :| 0 <= i < |r| && r[i].id == y;
      if i < k { assert r[i] == s[i]; } else if i > k { assert r[i] == s[i - 1]; }
    }
    if DistinctIds(s) && x.id !in IdsOf(s) {
      forall i, j | 0 <= i < j < |r| ensures r[i].id != r[j].id {
        if i == k || j == k {
          var o := if i == k then j else i;
          var o' := if o < k then o else o - 1;
          assert r[o] == s[o'] && s[o'].id in IdsOf(s);
        } else {
          var i', j' := if i < k then i else i - 1, if j < k then j else j - 1;
          assert r[i] == s[i'] && r[j] == s[j'];
        }
      }
    }
  }

  /** `OrderBy(r => r.Name).ToList()`: the same entries, sorted by name, and entries with
      equal names in the order they had. */
  function SortByName(s: seq<ResourceDto>): (r: seq<ResourceDto>)
    ensures SortedByName(r)
    ensures multiset(r) == multiset(s)
    ensures forall n :: WithName(r, n) == WithName(s, n)
    ensures IdsOf(r) == IdsOf(s)
    ensures DistinctIds(s) ==> DistinctIds(r)
  {
    if s == [] then []
    else
      var init, last := s[..|s| - 1], s[|s| - 1];
      assert s == init + [last];
      assert forall n :: WithName(s, n) == WithName(init, n) + WithName([last], n) by {
        forall n { WithNameConcat(init, [last], n); }
      }
      IdsOfAppend(init, last);
      assert DistinctIds(s) ==> DistinctIds(init) && last.id !in IdsOf(init);
      Insert(SortByName(init), last)
  }

  /** Sorting a list that is already sorted by name leaves it exactly as it was: equal names
      are never reordered. */
  lemma {:induction false} SortSorted(s: seq<ResourceDto>)
    requires SortedByName(s)
    ensures SortByName(s) == s
  {
    if s != [] {
      var init, last := s[..|s| - 1], s[|s| - 1];
      assert s == init + [last];
      assert SortedByName(init);
      SortSorted(init);
      InsertAtEnd(init, last);
      calc {
        SortByName(s);
        Insert(SortByName(init), last);
        Insert(init, last);
        s;
      }
    }
  }

  /** An entry whose name sorts after none of a sorted list's goes at its end. */
  lemma InsertAtEnd(s: seq<ResourceDto>, x: ResourceDto)
    requires SortedByName(s + [x])
    ensures SortedByName(s) && Insert(s, x) == s + [x]
  {
    var t := s + [x];
    assert forall i | 0 <= i < |s| :: s[i] == t[i];
    assert forall i | 0 <= i < |s| :: !Less(x.name, s[i].name) by {
      forall i | 0 <= i < |s| ensures !Less(x.name, s[i].name) { assert t[|s|] == x; }
    }
    assert InsertPosition(s, x) == |s|;
    assert s[..|s|] == s && s[|s|..] == [];
  }
}
