/**
 The username index of the State example, and the decision loop its clients run over the
 append protocol.
 */
module Register {
  import opened Radix
  import opened StateSync

  datatype Registration = Registration(username: string, userId: int)

  datatype Index = Index(byName: map<string, int>, byId: map<int, string>, maxId: int)

  const EMPTY_INDEX := Index(map[], map[], 0)

  /** userIndex.apply as a function. */
  function Apply(idx: Index, reg: Registration): (Index, bool) {
    if reg.userId != idx.maxId + 1 || reg.userId > MAX_REVISION then (idx, false)
    else if reg.username == "" then (idx, false)
    else if reg.username in idx.byName then (idx, false)
    else if reg.userId in idx.byId then (idx, false)
    else (Index(idx.byName[reg.username := reg.userId], idx.byId[reg.userId := reg.username], reg.userId), true)
  }

  /** The index as the example keeps it, updated in place. */
  class UserIndex {
    var byName: map<string, int>
    var byId: map<int, string>
    var maxId: int

    function Contents(): Index
      reads this
    {
      Index(byName, byId, maxId)
    }

    constructor ()
      ensures Contents() == EMPTY_INDEX
    {
      byName, byId, maxId := map[], map[], 0;
    }

    method Add(reg: Registration) returns (ok: bool)
      modifies this
      ensures (Contents(), ok) == Apply(old(Contents()), reg)
    {
      if reg.userId != maxId + 1 || reg.userId > MAX_REVISION {
        return false;
      }
      if reg.username == "" {
        return false;
      }
      if reg.username in byName {
        return false;
      }
      if reg.userId in byId {
        return false;
      }
      byName := byName[reg.username := reg.userId];
      byId := byId[reg.userId := reg.username];
      maxId := reg.userId;
      ok := true;
    }
  }

  /** IDs exactly 1..n in order, names nonempty and pairwise distinct. */
  ghost predicate Proper(regs: seq<Registration>) {
    && |regs| <= MAX_REVISION
    && (forall i :: 0 <= i < |regs| ==> regs[i].userId == i + 1 && regs[i].username != "")
    && (forall i, j :: 0 <= i < j < |regs| ==> regs[i].username != regs[j].username)
  }

  /** The index has the k-th registration under its ID and under its name. */
  predicate Entry(idx: Index, regs: seq<Registration>, k: int)
    requires 1 <= k <= |regs|
  {
    var name := regs[k - 1].username;
    k in idx.byId && idx.byId[k] == name && name in idx.byName && idx.byName[name] == k
  }

  /** The index lists exactly the registrations, in both directions. */
  ghost predicate Lists(idx: Index, regs: seq<Registration>) {
    && idx.maxId == |regs|
    && (forall k :: k in idx.byId ==> 1 <= k <= |regs|)
    && (forall k :: 1 <= k <= |regs| ==> Entry(idx, regs, k))
    && (forall name :: name in idx.byName ==> Named(idx, regs, name))
  }

  predicate Named(idx: Index, regs: seq<Registration>, name: string)
    requires name in idx.byName
  {
    1 <= idx.byName[name] <= |regs| && regs[idx.byName[name] - 1].username == name
  }

  /** ByName and ByID are inverse maps. */
  ghost predicate Inverse(idx: Index) {
    && (forall name :: name in idx.byName ==> idx.byName[name] in idx.byId && idx.byId[idx.byName[name]] == name)
    && (forall id :: id in idx.byId ==> idx.byId[id] in idx.byName && idx.byName[idx.byId[id]] == id)
  }

  lemma ListsInverse(idx: Index, regs: seq<Registration>)
    requires Lists(idx, regs)
    ensures Inverse(idx)
  {
    forall id | id in idx.byId
      ensures idx.byId[id] in idx.byName && idx.byName[idx.byId[id]] == id
    {
      assert Entry(idx, regs, id);
    }
    forall name | name in idx.byName
      ensures idx.byName[name] in idx.byId && idx.byId[idx.byName[name]] == name
    {
      assert Named(idx, regs, name) && Entry(idx, regs, idx.byName[name]);
    }
  }

  /** A registration is accepted exactly when it may follow those listed. */
  lemma ApplyAccepts(idx: Index, regs: seq<Registration>, reg: Registration)
    requires Proper(regs) && Lists(idx, regs)
    ensures Apply(idx, reg).1 <==> Proper(regs + [reg])
  {
    var more, n := regs + [reg], |regs|;
    assert more[n] == reg;
    assert forall i :: 0 <= i < n ==> more[i] == regs[i];
    if reg.username in idx.byName {
      assert Named(idx, regs, reg.username);
      assert more[idx.byName[reg.username] - 1].username == more[n].username;
    } else {
      forall i | 0 <= i < n
        ensures regs[i].username != reg.username
      {
        assert Entry(idx, regs, i + 1);
      }
    }
  }

  /** And then the index lists it too. */
  lemma ApplyLists(idx: Index, regs: seq<Registration>, reg: Registration)
    requires Lists(idx, regs) && Apply(idx, reg).1
    ensures Lists(Apply(idx, reg).0, regs + [reg])
  {
    var more, after := regs + [reg], Apply(idx, reg).0;
    forall k | 1 <= k <= |more|
      ensures Entry(after, more, k)
    {
      if k <= |regs| {
        assert Entry(idx, regs, k);
      }
    }
    forall name | name in after.byName
      ensures Named(after, more, name)
    {
      if name != reg.username {
        assert Named(idx, regs, name);
      }
    }
  }

  /** Replaying registrations from the empty index succeeds exactly when they are proper,
      and then gives an index of all of them. */
  lemma {:induction false} ReplayProper(regs: seq<Registration>)
    ensures Fold(Apply, EMPTY_INDEX, regs).Some? <==> Proper(regs)
    ensures Proper(regs) ==> Lists(Fold(Apply, EMPTY_INDEX, regs).value, regs)
  {
    if regs != [] {
      var n := |regs| - 1;
      ReplayProper(regs[..n]);
      assert regs == regs[..n] + [regs[n]];
      if Proper(regs[..n]) {
        hide Proper, Lists, Apply;
        var idx := Fold(Apply, EMPTY_INDEX, regs[..n]).value;
        ApplyAccepts(idx, regs[..n], regs[n]);
        if Apply(idx, regs[n]).1 {
          ApplyLists(idx, regs[..n], regs[n]);
        }
      }
      ProperFront(regs[..n], regs[n]);
    }
  }

  lemma ProperFront(regs: seq<Registration>, reg: Registration)
    ensures Proper(regs + [reg]) ==> Proper(regs)
  {
    var more := regs + [reg];
    assert forall i :: 0 <= i < |regs| ==> more[i] == regs[i];
  }

  /** A decision made on an up-to-date index is a proper next registration. */
  lemma DecisionProper(regs: seq<Registration>, name: string)
    requires Fold(Apply, EMPTY_INDEX, regs).Some? && name != ""
    requires
      var idx := Fold(Apply, EMPTY_INDEX, regs).value;
      name !in idx.byName && idx.maxId < MAX_REVISION
    ensures Proper(regs + [Registration(name, Fold(Apply, EMPTY_INDEX, regs).value.maxId + 1)])
  {
    ReplayProper(regs);
    var idx := Fold(Apply, EMPTY_INDEX, regs).value;
    assert idx.maxId + 1 !in idx.byId;
    ApplyAccepts(idx, regs, Registration(name, idx.maxId + 1));
  }
}
