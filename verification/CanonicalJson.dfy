/** The canonical form of JSON documents that release manifests are signed in: members sorted by their
    name's UTF-16 code units at every depth. */
module CanonicalJson {
  import opened Sequences

  newtype CodeUnit = n: int | 0 <= n < 0x1_0000

  /** A name as the runtime compares it: by numeric code units, not by characters. */
  type Name = seq<CodeUnit>

  datatype Json = Leaf(value: int) | Arr(items: seq<Json>) | Obj(members: seq<Member>)

  datatype Member = Member(name: Name, value: Json)

  // ---------------------------------------------------------------------------------------------
  // Ordinal order of names
  // ---------------------------------------------------------------------------------------------

  predicate Leq(a: Name, b: Name) {
    a == [] || (b != [] && (a[0] < b[0] || (a[0] == b[0] && Leq(a[1..], b[1..]))))
  }

  /** The order by positions: one name is the start of the other, or the first unit in which they differ is the
      smaller one. */
  lemma {:induction false} LeqMeaning(a: Name, b: Name)
    ensures Leq(a, b) <==>
            exists i: nat :: i <= |a| && i <= |b| && a[..i] == b[..i] && (i == |a| || (i < |b| && a[i] < b[i]))
  {
    if a == [] {
      assert a[..0] == b[..0];
    } else if b != [] {
      LeqMeaning(a[1..], b[1..]);
      if a[0] < b[0] {
        assert a[..0] == b[..0];
      }
      if a[0] == b[0] && Leq(a[1..], b[1..]) {
        var i: nat :| i <= |a| - 1 && i <= |b| - 1 && a[1..][..i] == b[1..][..i]
                      && (i == |a| - 1 || (i < |b| - 1 && a[1..][i] < b[1..][i]));
        LongerStart(a, b, i);
      }
      if i: nat :| i <= |a| && i <= |b| && a[..i] == b[..i] && (i == |a| || (i < |b| && a[i] < b[i])) {
        if i > 0 {
          assert a[0] == a[..i][0] == b[0];
          assert a[1..][..i - 1] == a[..i][1..] == b[1..][..i - 1];
        }
      }
    }
  }

  lemma LongerStart(a: Name, b: Name, i: nat)
    requires a != [] && b != [] && a[0] == b[0] && i < |a| && i < |b| && a[1..][..i] == b[1..][..i]
    ensures a[..i + 1] == b[..i + 1]
  {
    assert a[..i + 1] == [a[0]] + a[1..][..i];
    assert b[..i + 1] == [b[0]] + b[1..][..i];
  }

  lemma {:induction false} LeqTotal(a: Name, b: Name)
    ensures Leq(a, b) || Leq(b, a)
    ensures Leq(a, b) && Leq(b, a) ==> a == b
  {
    if a != [] && b != [] {
      LeqTotal(a[1..], b[1..]);
      assert a == [a[0]] + a[1..] && b == [b[0]] + b[1..];
    }
  }

  lemma {:induction false} LeqTransitive(a: Name, b: Name, c: Name)
    requires Leq(a, b) && Leq(b, c)
    ensures Leq(a, c)
  {
    if a != [] {
      if a[0] == b[0] == c[0] {
        LeqTransitive(a[1..], b[1..], c[1..]);
      }
    }
  }

  // ---------------------------------------------------------------------------------------------
  // The canonical form
  // ---------------------------------------------------------------------------------------------

  function Insert(m: Member, sorted: seq<Member>): seq<Member> {
    if sorted == [] then [m]
    else if Leq(m.name, sorted[0].name) then [m] + sorted
    else [sorted[0]] + Insert(m, sorted[1..])
  }

  /** A stable sort by name. */
  function Sort(members: seq<Member>): seq<Member> {
    if members == [] then [] else Insert(members[0], Sort(members[1..]))
  }

  function Canonicalize(j: Json): Json
    decreases j
  {
    match j
    case Leaf(_) => j
    case Arr(items) => Arr(seq(|items|, i requires 0 <= i < |items| => Canonicalize(items[i])))
    case Obj(members) =>
      Obj(Sort(seq(|members|, i requires 0 <= i < |members| =>
        Member(members[i].name, Canonicalize(members[i].value)))))
  }

  // ---------------------------------------------------------------------------------------------
  // What a document means
  // ---------------------------------------------------------------------------------------------

  /** No object has two members of the same name, at any depth. */
  ghost predicate Proper(j: Json)
    decreases j
  {
    match j
    case Leaf(_) => true
    case Arr(items) => forall i :: 0 <= i < |items| ==> Proper(items[i])
    case Obj(members) =>
      && DistinctNames(members)
      && forall i :: 0 <= i < |members| ==> Proper(members[i].value)
  }

  ghost predicate DistinctNames(members: seq<Member>) {
    forall i, k :: 0 <= i < k < |members| ==> members[i].name != members[k].name
  }

  /** A document without its member order: an object is a map from names to values. */
  datatype Value = LeafValue(value: int) | ArrValue(items: seq<Value>) | ObjValue(members: map<Name, Value>)

  ghost function Meaning(j: Json): Value
    requires Proper(j)
    decreases j
  {
    match j
    case Leaf(value) => LeafValue(value)
    case Arr(items) => ArrValue(seq(|items|, i requires 0 <= i < |items| => Meaning(items[i])))
    case Obj(members) => ObjValue(map name | name in Names(members) :: Meaning(At(members, name)))
  }

  ghost function Names(members: seq<Member>): set<Name> {
    set i | 0 <= i < |members| :: members[i].name
  }

  ghost function At(members: seq<Member>, name: Name): (value: Json)
    requires name in Names(members)
    ensures exists i :: 0 <= i < |members| && members[i].name == name && members[i].value == value
  {
    var i :| 0 <= i < |members| && members[i].name == name;
    members[i].value
  }

  lemma AtIndex(members: seq<Member>, i: nat)
    requires DistinctNames(members) && i < |members|
    ensures members[i].name in Names(members) && At(members, members[i].name) == members[i].value
  {
  }

  /** Every object lists its members in increasing name order. */
  ghost predicate Sorted(j: Json)
    decreases j
  {
    match j
    case Leaf(_) => true
    case Arr(items) => forall i :: 0 <= i < |items| ==> Sorted(items[i])
    case Obj(members) => InOrder(members) && forall i :: 0 <= i < |members| ==> Sorted(members[i].value)
  }

  ghost predicate InOrder(members: seq<Member>) {
    forall i, k :: 0 <= i < k < |members| ==> Leq(members[i].name, members[k].name)
  }

  // ---------------------------------------------------------------------------------------------
  // Sorting
  // ---------------------------------------------------------------------------------------------

  lemma {:induction false} InsertMembers(m: Member, sorted: seq<Member>)
    ensures multiset(Insert(m, sorted)) == multiset(sorted) + multiset{m}
  {
    if sorted != [] {
      InsertMembers(m, sorted[1..]);
      assert sorted == [sorted[0]] + sorted[1..];
    }
  }

  lemma {:induction false} InsertKeepsOrder(m: Member, sorted: seq<Member>)
    requires InOrder(sorted)
    ensures InOrder(Insert(m, sorted))
  {
    if sorted != [] {
      var first := sorted[0].name;
      LeqTotal(m.name, first);
      if Leq(m.name, first) {
        forall k | 0 < k < |sorted|
          ensures Leq(m.name, sorted[k].name)
        {
          LeqTransitive(m.name, first, sorted[k].name);
        }
      } else {
        var rest := Insert(m, sorted[1..]);
        InsertKeepsOrder(m, sorted[1..]);
        forall k | 0 <= k < |rest|
          ensures Leq(first, rest[k].name)
        {
          InsertMembers(m, sorted[1..]);
          assert rest[k] in multiset(rest);
          assert rest[k] == m || rest[k] in sorted[1..];
        }
      }
    }
  }

  lemma {:induction false} SortMembers(members: seq<Member>)
    ensures multiset(Sort(members)) == multiset(members)
    ensures InOrder(Sort(members))
  {
    if members != [] {
      SortMembers(members[1..]);
      InsertMembers(members[0], Sort(members[1..]));
      InsertKeepsOrder(members[0], Sort(members[1..]));
      assert members == [members[0]] + members[1..];
    }
  }

  lemma SortKeeps(members: seq<Member>)
    ensures |Sort(members)| == |members|
    ensures forall m :: m in Sort(members) <==> m in members
    ensures DistinctNames(members) ==> DistinctNames(Sort(members))
  {
    SortMembers(members);
    var sorted := Sort(members);
    assert |multiset(sorted)| == |multiset(members)|;
    forall m
      ensures m in sorted <==> m in members
    {
      assert m in multiset(sorted) <==> m in multiset(members);
    }
    if DistinctNames(members) {
      forall i, k | 0 <= i < k < |sorted|
        ensures sorted[i].name != sorted[k].name
      {
        if sorted[i].name == sorted[k].name {
          SameNameSameMember(members, sorted[i], sorted[k]);
          CountsTwice(sorted, i, k);
          OnceInSequence(members, sorted[i]);
        }
      }
    }
  }

  lemma SameNameSameMember(members: seq<Member>, m: Member, n: Member)
    requires DistinctNames(members) && m in members && n in members && m.name == n.name
    ensures m == n
  {
    var i :| 0 <= i < |members| && members[i] == m;
    var k :| 0 <= k < |members| && members[k] == n;
  }

  lemma OnceInSequence(members: seq<Member>, m: Member)
    requires DistinctNames(members) && m in members
    ensures multiset(members)[m] == 1
  {
    var i :| 0 <= i < |members| && members[i] == m;
    assert members == members[..i] + [m] + members[i + 1..];
    assert m !in members[..i] && m !in members[i + 1..];
  }

  /** A list of distinct names has one sorted order. */
  lemma {:induction false} SortedListIsUnique(a: seq<Member>, b: seq<Member>)
    requires InOrder(a) && InOrder(b) && DistinctNames(a) && DistinctNames(b)
    requires forall m :: m in a <==> m in b
    ensures a == b
  {
    assert b != [] ==> b[0] in b;
    if a != [] {
      assert a[0] in a && a[0] in b;
      assert b[0] in b && b[0] in a;
      LeqTotal(a[0].name, b[0].name);
      SameNameSameMember(a, a[0], b[0]);
      forall m
        ensures m in a[1..] <==> m in b[1..]
      {
        RestMembers(a, m);
        RestMembers(b, m);
      }
      SortedListIsUnique(a[1..], b[1..]);
      assert a == [a[0]] + a[1..] && b == [b[0]] + b[1..];
    }
  }

  lemma RestMembers(a: seq<Member>, m: Member)
    requires a != [] && DistinctNames(a)
    ensures m in a[1..] <==> m in a && m != a[0]
  {
    assert a == [a[0]] + a[1..];
  }

  // ---------------------------------------------------------------------------------------------
  // The canonical form is the meaning
  // ---------------------------------------------------------------------------------------------

  function CanonicalMembers(members: seq<Member>): seq<Member> {
    seq(|members|, i requires 0 <= i < |members| => Member(members[i].name, Canonicalize(members[i].value)))
  }

  /** Two member lists with the same names whose values mean the same. */
  lemma MembersMeaning(a: seq<Member>, b: seq<Member>)
    requires Proper(Obj(a)) && Proper(Obj(b)) && Names(a) == Names(b)
    requires forall name <- Names(a) :: Meaning(At(a, name)) == Meaning(At(b, name))
    ensures Meaning(Obj(a)) == Meaning(Obj(b))
  {
    assert Meaning(Obj(a)).members == Meaning(Obj(b)).members;
  }

  /** Canonicalising changes the order of members and nothing else. */
  lemma {:induction false} CanonicalizePreservesMeaning(j: Json)
    requires Proper(j)
    ensures Proper(Canonicalize(j)) && Meaning(Canonicalize(j)) == Meaning(j)
    decreases j
  {
    match j
    case Leaf(_) =>
    case Arr(items) =>
      forall i | 0 <= i < |items|
        ensures Proper(Canonicalize(items[i])) && Meaning(Canonicalize(items[i])) == Meaning(items[i])
      {
        CanonicalizePreservesMeaning(items[i]);
      }
    case Obj(members) =>
      var canonical := CanonicalMembers(members);
      forall i | 0 <= i < |members|
        ensures Proper(canonical[i].value) && Meaning(canonical[i].value) == Meaning(members[i].value)
      {
        CanonicalizePreservesMeaning(members[i].value);
      }
      ReplacedValuesKeepMeaning(members, canonical);
      SortingKeepsMeaning(canonical);
  }

  /** Reordering members by name does not change what they mean. */
  lemma SortingKeepsMeaning(members: seq<Member>)
    requires Proper(Obj(members))
    ensures Proper(Obj(Sort(members))) && Meaning(Obj(Sort(members))) == Meaning(Obj(members))
  {
    var sorted := Sort(members);
    SortKeeps(members);
    forall i | 0 <= i < |sorted|
      ensures sorted[i].name in Names(members) && At(members, sorted[i].name) == sorted[i].value
    {
      assert sorted[i] in members;
      var k :| 0 <= k < |members| && members[k] == sorted[i];
      AtIndex(members, k);
    }
    forall k | 0 <= k < |members|
      ensures members[k].name in Names(sorted) && At(sorted, members[k].name) == members[k].value
    {
      assert members[k] in sorted;
      var i :| 0 <= i < |sorted| && sorted[i] == members[k];
      AtIndex(sorted, i);
    }
    assert Proper(Obj(sorted));
    MembersMeaning(sorted, members);
  }

  lemma ReplacedValuesKeepMeaning(members: seq<Member>, canonical: seq<Member>)
    requires Proper(Obj(members)) && |canonical| == |members|
    requires forall i :: 0 <= i < |members| ==>
               && canonical[i].name == members[i].name
               && Proper(canonical[i].value)
               && Meaning(canonical[i].value) == Meaning(members[i].value)
    ensures Proper(Obj(canonical)) && Meaning(Obj(canonical)) == Meaning(Obj(members))
  {
    assert Proper(Obj(canonical));
    forall i | 0 <= i < |members|
      ensures members[i].name in Names(canonical)
      ensures Meaning(At(canonical, members[i].name)) == Meaning(At(members, members[i].name))
      ensures canonical[i].name in Names(members)
    {
      AtIndex(members, i);
      AtIndex(canonical, i);
    }
    assert Names(members) == Names(canonical);
    MembersMeaning(canonical, members);
  }

  /** Documents that mean the same have the same canonical form. */
  lemma {:induction false} SameMeaningSameForm(a: Json, b: Json)
    requires Proper(a) && Proper(b) && Meaning(a) == Meaning(b)
    ensures Canonicalize(a) == Canonicalize(b)
    decreases a
  {
    match a
    case Leaf(_) =>
    case Arr(items) =>
      var m, n := Meaning(a).items, Meaning(b).items;
      forall i | 0 <= i < |items|
        ensures Canonicalize(items[i]) == Canonicalize(b.items[i])
      {
        assert m[i] == n[i];
        SameMeaningSameForm(items[i], b.items[i]);
      }
    case Obj(members) =>
      var x, y := CanonicalMembers(members), CanonicalMembers(b.members);
      forall i | 0 <= i < |members|
        ensures x[i] in y
      {
        var k := PartnerOf(members, b.members, i);
        SameMeaningSameForm(members[i].value, b.members[k].value);
        assert y[k] == x[i];
      }
      forall k | 0 <= k < |b.members|
        ensures y[k] in x
      {
        var i := PartnerOf(b.members, members, k);
        SameMeaningSameForm(members[i].value, b.members[k].value);
        assert x[i] == y[k];
      }
      SortKeeps(x);
      SortKeeps(y);
      SortMembers(x);
      SortMembers(y);
      SortedListIsUnique(Sort(x), Sort(y));
  }

  lemma PartnerOf(a: seq<Member>, b: seq<Member>, i: nat) returns (k: nat)
    requires Proper(Obj(a)) && Proper(Obj(b)) && Meaning(Obj(a)) == Meaning(Obj(b)) && i < |a|
    ensures k < |b| && b[k].name == a[i].name && Meaning(b[k].value) == Meaning(a[i].value)
  {
    var m, n, name := Meaning(Obj(a)).members, Meaning(Obj(b)).members, a[i].name;
    AtIndex(a, i);
    assert name in m && name in n;
    k :| 0 <= k < |b| && b[k].name == name && b[k].value == At(b, name);
    assert m[name] == Meaning(At(a, name)) && n[name] == Meaning(At(b, name));
  }

  /** Two documents have the same canonical form exactly when they are equal up to the order of members
      at every depth. */
  lemma CanonicalFormIsMeaning(a: Json, b: Json)
    requires Proper(a) && Proper(b)
    ensures Canonicalize(a) == Canonicalize(b) <==> Meaning(a) == Meaning(b)
  {
    CanonicalizePreservesMeaning(a);
    CanonicalizePreservesMeaning(b);
    if Meaning(a) == Meaning(b) {
      SameMeaningSameForm(a, b);
    }
  }

  lemma CanonicalizeIsIdempotent(j: Json)
    requires Proper(j)
    ensures Canonicalize(Canonicalize(j)) == Canonicalize(j)
  {
    CanonicalizePreservesMeaning(j);
    CanonicalFormIsMeaning(Canonicalize(j), j);
  }

  /** The canonical form is sorted at every depth. */
  lemma {:induction false} CanonicalFormIsSorted(j: Json)
    ensures Sorted(Canonicalize(j))
    decreases j
  {
    match j
    case Leaf(_) =>
    case Arr(items) =>
      forall i | 0 <= i < |items|
        ensures Sorted(Canonicalize(items[i]))
      {
        CanonicalFormIsSorted(items[i]);
      }
    case Obj(members) =>
      var canonical := CanonicalMembers(members);
      SortMembers(canonical);
      SortKeeps(canonical);
      forall i | 0 <= i < |Sort(canonical)|
        ensures Sorted(Sort(canonical)[i].value)
      {
        assert Sort(canonical)[i] in canonical;
        var k :| 0 <= k < |canonical| && canonical[k] == Sort(canonical)[i];
        CanonicalFormIsSorted(members[k].value);
      }
  }

  /** Documents with distinct names that are already sorted are their own canonical form, and no others. */
  lemma {:induction false} FixedPointsAreSorted(j: Json)
    requires Proper(j)
    ensures Canonicalize(j) == j <==> Sorted(j)
    decreases j
  {
    CanonicalFormIsSorted(j);
    if Sorted(j) {
      match j
      case Leaf(_) =>
      case Arr(items) =>
        forall i | 0 <= i < |items|
          ensures Canonicalize(items[i]) == items[i]
        {
          FixedPointsAreSorted(items[i]);
        }
      case Obj(members) =>
        forall i | 0 <= i < |members|
          ensures Canonicalize(members[i].value) == members[i].value
        {
          FixedPointsAreSorted(members[i].value);
        }
        assert CanonicalMembers(members) == members;
        SortMembers(members);
        SortKeeps(members);
        SortedListIsUnique(Sort(members), members);
    }
  }
}
