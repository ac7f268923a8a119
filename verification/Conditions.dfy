/** Go slices over shared backing arrays: the header is a value, the array is on the heap. */
module Slices {

  datatype Slice<T> = Slice(data: array?<T>, len: nat) {

    ghost predicate Valid() {
      if data == null then len == 0 else len <= data.Length
    }

    ghost function View(): seq<T>
      requires Valid()
      reads data
    {
      if data == null then [] else data[..len]
    }
  }

  /** Go's append: writes into spare capacity when there is some, and moves to a new array otherwise. */
  method Append<T(0)>(s: Slice<T>, x: T) returns (r: Slice<T>)
    requires s.Valid()
    modifies s.data
    ensures r.Valid() && r.data != null && (r.data == s.data || fresh(r.data))
    ensures r.View() == old(s.View()) + [x]
    ensures s.View() == old(s.View())
  {
    if s.data != null && s.len < s.data.Length {
      s.data[s.len] := x;
      r := Slice(s.data, s.len + 1);
    } else {
      var capacity: nat :| s.len < capacity;
      var data := new T[capacity];
      forall i | 0 <= i < s.len {
        data[i] := s.data[i];
      }
      data[s.len] := x;
      r := Slice(data, s.len + 1);
    }
  }
}

/** The condition list of a status: replace-or-append merging and the approval scan. */
module Conditions {
  import opened Types
  import opened Slices

  /** Replace the first condition of c's kind, or append c when there is none. */
  function Merge(cs: seq<Condition>, c: Condition): seq<Condition> {
    if cs == [] then [c]
    else if cs[0].kind == c.kind then [c] + cs[1..]
    else [cs[0]] + Merge(cs[1..], c)
  }

  function Lookup(cs: seq<Condition>, kind: string): Option<Condition> {
    if cs == [] then None
    else if cs[0].kind == kind then Some(cs[0])
    else Lookup(cs[1..], kind)
  }

  ghost predicate UniqueKinds(cs: seq<Condition>) {
    forall i, j :: 0 <= i < j < |cs| ==> cs[i].kind != cs[j].kind
  }

  predicate IsApproved(cs: seq<Condition>) {
    exists i :: 0 <= i < |cs| && cs[i].kind == APPROVED && cs[i].status == ConditionTrue
  }

  /** Merging is last-write-wins on its own kind and invisible to every other kind. */
  lemma {:induction false} MergeLookup(cs: seq<Condition>, c: Condition, kind: string)
    ensures Lookup(Merge(cs, c), kind) == if kind == c.kind then Some(c) else Lookup(cs, kind)
  {
    if cs != [] && cs[0].kind != c.kind {
      MergeLookup(cs[1..], c, kind);
      assert Merge(cs, c)[1..] == Merge(cs[1..], c);
    } else if cs != [] {
      assert Merge(cs, c)[1..] == cs[1..];
    }
  }

  /** Merging changes one position at most: the one of c's kind, or a new last one. */
  lemma {:induction false} MergeInPlace(cs: seq<Condition>, c: Condition)
    ensures Lookup(cs, c.kind).None? ==> Merge(cs, c) == cs + [c]
    ensures Lookup(cs, c.kind).Some? ==>
              exists i :: 0 <= i < |cs| && cs[i].kind == c.kind && Merge(cs, c) == cs[i := c]
                          && forall j :: 0 <= j < i ==> cs[j].kind != c.kind
  {
    if cs != [] && cs[0].kind != c.kind {
      MergeInPlace(cs[1..], c);
      if Lookup(cs, c.kind).Some? {
        var i :| 0 <= i < |cs[1..]| && cs[1..][i].kind == c.kind && Merge(cs[1..], c) == cs[1..][i := c]
                 && forall j :: 0 <= j < i ==> cs[1..][j].kind != c.kind;
        assert cs[i + 1].kind == c.kind && Merge(cs, c) == cs[i + 1 := c];
        assert forall j :: 0 <= j < i + 1 ==> j == 0 || cs[j] == cs[1..][j - 1];
      }
    } else if cs != [] {
      assert Merge(cs, c) == cs[0 := c];
    }
  }

  lemma LookupNone(cs: seq<Condition>, kind: string)
    ensures Lookup(cs, kind).None? <==> forall i :: 0 <= i < |cs| ==> cs[i].kind != kind
  {
    if cs != [] {
      LookupNone(cs[1..], kind);
      assert forall i :: 0 < i < |cs| ==> cs[i] == cs[1..][i - 1];
    }
  }

  lemma MergeKeepsUnique(cs: seq<Condition>, c: Condition)
    requires UniqueKinds(cs)
    ensures UniqueKinds(Merge(cs, c))
  {
    MergeInPlace(cs, c);
    LookupNone(cs, c.kind);
  }

  /** Only the last of several merges of one kind is visible. */
  lemma {:induction false} MergeTwice(cs: seq<Condition>, c1: Condition, c2: Condition)
    requires c1.kind == c2.kind
    ensures Merge(Merge(cs, c1), c2) == Merge(cs, c2)
  {
    if cs != [] && cs[0].kind != c1.kind {
      MergeTwice(cs[1..], c1, c2);
      assert Merge(cs, c1)[1..] == Merge(cs[1..], c1);
    } else if cs != [] {
      assert Merge(cs, c1)[1..] == cs[1..];
    }
  }

  /** An Approved=True entry that an earlier Approved entry hides from replacement. */
  ghost predicate HiddenApproval(cs: seq<Condition>) {
    exists i, j :: 0 <= i < j < |cs| && cs[i].kind == APPROVED && cs[j].kind == APPROVED
                   && cs[j].status == ConditionTrue
  }

  /**
   The approval scan looks at every condition, not only at the first of its kind.  Merging another
   kind never changes it; merging Approved=True always turns it on; merging any other Approved
   status turns it off unless a hidden True entry is left, which unique kinds rule out.
   */
  lemma MergeApproved(cs: seq<Condition>, c: Condition)
    ensures c.kind != APPROVED ==> IsApproved(Merge(cs, c)) == IsApproved(cs)
    ensures c.kind == APPROVED && c.status == ConditionTrue ==> IsApproved(Merge(cs, c))
    ensures c.kind == APPROVED && c.status != ConditionTrue ==>
              (IsApproved(Merge(cs, c)) <==> HiddenApproval(cs))
    ensures UniqueKinds(cs) ==> !HiddenApproval(cs)
  {
    MergeInPlace(cs, c);
    LookupNone(cs, c.kind);
    var merged := Merge(cs, c);
    if Lookup(cs, c.kind).None? {
      assert merged == cs + [c];
      assert merged[|cs|] == c;
      assert forall i :: 0 <= i < |cs| ==> merged[i] == cs[i];
    } else {
      var i :| 0 <= i < |cs| && cs[i].kind == c.kind && merged == cs[i := c]
               && forall j :: 0 <= j < i ==> cs[j].kind != c.kind;
      assert merged[i] == c;
      assert forall j :: 0 <= j < |cs| && j != i ==> merged[j] == cs[j];
    }
  }

  /** The in-place replace-or-append: the backing array is reused whenever the kind is already there. */
  method MergeCondition(conditions: Slice<Condition>, newCondition: Condition) returns (r: Slice<Condition>)
    requires conditions.Valid()
    modifies conditions.data
    ensures r.Valid() && r.data != null && (r.data == conditions.data || fresh(r.data))
    ensures r.View() == Merge(old(conditions.View()), newCondition)
    ensures Lookup(old(conditions.View()), newCondition.kind).Some? ==> r == conditions
    ensures Lookup(old(conditions.View()), newCondition.kind).None? ==> conditions.View() == old(conditions.View())
  {
    ghost var was := conditions.View();
    MergeInPlace(was, newCondition);
    LookupNone(was, newCondition.kind);
    var i := 0;
    while i < conditions.len
      invariant 0 <= i <= conditions.len && conditions.View() == was
      invariant forall j :: 0 <= j < i ==> was[j].kind != newCondition.kind
    {
      if conditions.data[i].kind == newCondition.kind {
        conditions.data[i] := newCondition;
        assert conditions.View() == was[i := newCondition];
        return conditions;
      }
      i := i + 1;
    }
    r := Append(conditions, newCondition);
  }

  method IsApprovedScan(conditions: Slice<Condition>) returns (approved: bool)
    requires conditions.Valid()
    ensures approved == IsApproved(conditions.View())
  {
    var i := 0;
    while i < conditions.len
      invariant 0 <= i <= conditions.len
      invariant forall j :: 0 <= j < i ==>
                  conditions.View()[j].kind != APPROVED || conditions.View()[j].status != ConditionTrue
    {
      if conditions.data[i].kind == APPROVED && conditions.data[i].status == ConditionTrue {
        assert conditions.View()[i] == conditions.data[i];
        return true;
      }
      i := i + 1;
    }
    return false;
  }
}
