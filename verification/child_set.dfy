/** The child set of the composite contracts: a key-value map from child
    address to nothing, ranged over in ascending key order. It is modelled as
    the strictly ascending list of its keys, so the iteration order the
    contracts see is part of the value. */
module ChildSet {
  import opened Cosmos

  /** Strict lexicographic order on addresses by code point. For UTF-8 text
      this is the byte order the store ranges keys in. */
  predicate Below(a: Addr, b: Addr)
    decreases |a|
  {
    if |a| == 0 then |b| > 0
    else if |b| == 0 then false
    else if a[0] != b[0] then a[0] < b[0]
    else Below(a[1..], b[1..])
  }

  lemma {:induction false} BelowIrreflexive(a: Addr)
    ensures !Below(a, a)
    decreases |a|
  {
    if |a| > 0 {
      BelowIrreflexive(a[1..]);
    }
  }

  lemma {:induction false} BelowTransitive(a: Addr, b: Addr, c: Addr)
    requires Below(a, b) && Below(b, c)
    ensures Below(a, c)
    decreases |a|
  {
    if |a| > 0 && a[0] == b[0] && b[0] == c[0] {
      BelowTransitive(a[1..], b[1..], c[1..]);
    }
  }

  lemma {:induction false} BelowTotal(a: Addr, b: Addr)
    ensures a == b || Below(a, b) || Below(b, a)
    decreases |a|
  {
    if |a| > 0 && |b| > 0 && a[0] == b[0] {
      BelowTotal(a[1..], b[1..]);
      if a[1..] == b[1..] {
        assert a == [a[0]] + a[1..];
        assert b == [b[0]] + b[1..];
      }
    }
  }

  predicate Ascending(s: seq<Addr>) {
    forall i, j :: 0 <= i < j < |s| ==> Below(s[i], s[j])
  }

  /** The stored children, in the order a range query returns them. */
  type ChildList = s: seq<Addr> | Ascending(s) witness []

  /** An ascending list holds no address twice. */
  lemma AscendingDistinct(s: ChildList)
    ensures forall i, j :: 0 <= i < j < |s| ==> s[i] != s[j]
  {
    forall i, j | 0 <= i < j < |s|
      ensures s[i] != s[j]
    {
      BelowIrreflexive(s[i]);
    }
  }

  /** Prepending an address below every element keeps a list ascending. */
  lemma ConsAscending(k: Addr, s: ChildList)
    requires forall x :: x in s ==> Below(k, x)
    ensures Ascending([k] + s)
  {
    var t := [k] + s;
    forall i, j | 0 <= i < j < |t|
      ensures Below(t[i], t[j])
    {
      if i == 0 {
        assert t[j] == s[j - 1];
      } else {
        assert t[i] == s[i - 1] && t[j] == s[j - 1];
      }
    }
  }

  /** The head of an ascending list is below everything after it. */
  lemma HeadBelowRest(s: ChildList)
    requires |s| > 0
    ensures forall x :: x in s[1..] ==> Below(s[0], x)
  {
    forall x | x in s[1..]
      ensures Below(s[0], x)
    {
      var j :| 0 <= j < |s[1..]| && s[1..][j] == x;
      assert s[j + 1] == x;
    }
  }

  /** Saving a key: insert it at its place; a key already present is kept once. */
  function Insert(s: ChildList, k: Addr): (r: ChildList)
    ensures forall a :: a in r <==> a in s || a == k
    decreases |s|
  {
    if |s| == 0 then
      [k]
    else if s[0] == k then
      s
    else if Below(k, s[0]) then
      HeadBelowRest(s);
      assert forall x :: x in s ==> x == s[0] || x in s[1..] by {
        assert s == [s[0]] + s[1..];
      }
      forall x | x in s[1..] ensures Below(k, x) {
        BelowTransitive(k, s[0], x);
      }
      ConsAscending(k, s);
      [k] + s
    else
      var rest := Insert(s[1..], k);
      HeadBelowRest(s);
      BelowTotal(k, s[0]);
      ConsAscending(s[0], rest);
      assert s == [s[0]] + s[1..];
      [s[0]] + rest
  }

  /** Removing a key: drop it if present; an absent key changes nothing. */
  function Remove(s: ChildList, k: Addr): (r: ChildList)
    ensures forall a :: a in r <==> a in s && a != k
    decreases |s|
  {
    if |s| == 0 then
      s
    else if s[0] == k then
      HeadBelowRest(s);
      BelowIrreflexive(k);
      assert s == [s[0]] + s[1..];
      s[1..]
    else
      var rest := Remove(s[1..], k);
      HeadBelowRest(s);
      ConsAscending(s[0], rest);
      assert s == [s[0]] + s[1..];
      [s[0]] + rest
  }

  /** Two ascending lists with the same elements are the same list: the stored
      children are determined by the set of saved keys alone. */
  lemma {:induction false} AscendingUnique(s: ChildList, t: ChildList)
    requires forall a :: a in s <==> a in t
    ensures s == t
    decreases |s|
  {
    if |s| > 0 || |t| > 0 {
      assert |s| > 0 ==> s[0] in t;
      assert |t| > 0 ==> t[0] in s;
      HeadBelowRest(s);
      HeadBelowRest(t);
      if s[0] != t[0] {
        assert s == [s[0]] + s[1..];
        assert t == [t[0]] + t[1..];
        assert t[0] in s[1..];
        assert s[0] in t[1..];
        BelowTransitive(s[0], t[0], s[0]);
        BelowIrreflexive(s[0]);
      }
      assert s == [s[0]] + s[1..];
      assert t == [t[0]] + t[1..];
      AscendingDistinct(s);
      AscendingDistinct(t);
      forall a
        ensures a in s[1..] <==> a in t[1..]
      {
        BelowIrreflexive(s[0]);
        if a in s[1..] {
          assert a in s && a != s[0];
          assert a in t[1..];
        }
        if a in t[1..] {
          assert a in t && a != t[0];
          assert a in s[1..];
        }
      }
      AscendingUnique(s[1..], t[1..]);
    }
  }

  /** Saving each key of `ks` in turn, starting from `acc`. */
  function InsertAll(acc: ChildList, ks: seq<Addr>): (r: ChildList)
    ensures forall a :: a in r <==> a in acc || a in ks
    decreases |ks|
  {
    if |ks| == 0 then
      acc
    else
      assert ks == [ks[0]] + ks[1..];
      InsertAll(Insert(acc, ks[0]), ks[1..])
  }

  /** The child list an instantiation with the given addresses stores. */
  function FromSeq(ks: seq<Addr>): (r: ChildList)
    ensures forall a :: a in r <==> a in ks
  {
    InsertAll([], ks)
  }

  /** Saving a present key again changes nothing. */
  lemma InsertIdempotent(s: ChildList, k: Addr)
    requires k in s
    ensures Insert(s, k) == s
  {
    AscendingUnique(Insert(s, k), s);
  }

  /** Removing an absent key changes nothing. */
  lemma RemoveAbsent(s: ChildList, k: Addr)
    requires k !in s
    ensures Remove(s, k) == s
  {
    AscendingUnique(Remove(s, k), s);
  }

  /** The stored list depends only on which addresses were listed: order and
      repetitions in the instantiation message do not matter. */
  lemma FromSeqCanonical(ks: seq<Addr>, ks': seq<Addr>)
    requires forall a :: a in ks <==> a in ks'
    ensures FromSeq(ks) == FromSeq(ks')
  {
    AscendingUnique(FromSeq(ks), FromSeq(ks'));
  }

  /** `AddChild { addr }` and `RemoveChild { addr }`, shared by both composites. */
  datatype ExecuteMsg = AddChild(addr: Addr) | RemoveChild(addr: Addr)

  /** Applies a child-set change for an already authorized caller. */
  function Apply(children: ChildList, msg: ExecuteMsg): (r: (ChildList, Response))
    ensures msg.AddChild? ==> forall a :: a in r.0 <==> a in children || a == msg.addr
    ensures msg.RemoveChild? ==> forall a :: a in r.0 <==> a in children && a != msg.addr
    ensures r.1 == EmptyResponse.AddAttribute("action", if msg.AddChild? then "allow" else "remove")
  {
    match msg
    case AddChild(addr) => (Insert(children, addr), EmptyResponse.AddAttribute("action", "allow"))
    case RemoveChild(addr) => (Remove(children, addr), EmptyResponse.AddAttribute("action", "remove"))
  }
}
