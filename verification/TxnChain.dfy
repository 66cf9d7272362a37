/** Commits one after another, and the chain of hashes that their rows form. */
module TxnChain {
  import opened Prelude
  import Transition
  import opened AuditTail
  import opened AuditLog
  import opened PhaseTxn

  /** What one commit is asked for, besides the state it starts from. */
  datatype Change = Change(after: Transition.PhaseState, single: Option<Draft>, several: Option<seq<Draft>>, txnId: nat)

  /** The rows of one commit, and the hashes they carry where they carry any. */
  datatype Group = Group(rows: seq<Row>, txnId: nat, before: Hash, after: Hash)

  function AllRows(groups: seq<Group>): seq<Row> {
    if groups == [] then [] else AllRows(groups[..|groups| - 1]) + groups[|groups| - 1].rows
  }

  ghost predicate Carried(group: Group) {
    forall row :: row in group.rows && !row.Minimal? ==>
      row.entry.txn == Some(TxnStamp(group.txnId, group.before, group.after))
  }

  /** Each commit starts from the hash the one before it ended with. */
  ghost predicate Chained(groups: seq<Group>, from: Hash, to: Hash) {
    if groups == [] then from == to
    else
      var last := groups[|groups| - 1];
      Carried(last) && last.after == to && Chained(groups[..|groups| - 1], from, last.before)
  }

  function StateHash(state: Option<seq<Byte>>): Hash {
    if state.Some? then Sha(state.value) else NoHash
  }

  lemma OneMoreGroup(groups: seq<Group>, group: Group, from: Hash)
    requires Chained(groups, from, group.before) && Carried(group)
    ensures Chained(groups + [group], from, group.after) && AllRows(groups + [group]) == AllRows(groups) + group.rows
  {
    assert (groups + [group])[..|groups|] == groups;
  }

  lemma RowsAreCarried(rows: seq<Row>, r: Request, txnId: nat, before: Hash, after: Hash)
    requires LogsRequest(rows, r, txnId, before, after)
    ensures Carried(Group(rows, txnId, before, after))
    ensures |rows| == if r.several.Some? && r.several.value != [] then |r.several.value| else 1
  {
  }

  /** Two commits in a row: the second starts from the hash the first ended with. */
  lemma {:induction false} NeighboursMeet(groups: seq<Group>, from: Hash, to: Hash, k: nat)
    requires Chained(groups, from, to) && k + 1 < |groups|
    ensures groups[k + 1].before == groups[k].after
  {
    var front := groups[..|groups| - 1];
    if k + 2 < |groups| {
      NeighboursMeet(front, from, groups[|groups| - 1].before, k);
      assert front[k] == groups[k] && front[k + 1] == groups[k + 1];
    } else {
      assert front[|front| - 1] == groups[k];
    }
  }

  /** Every change committed in turn, each from the state the one before it left, as under one lock. The rows form one
      chain of hashes from the state at the start to the bytes of the state file at the end. */
  method CommitAll(dir: TxnDirectory, lock: Lock, start: Option<Transition.PhaseState>, changes: seq<Change>)
    returns (committed: bool, ghost groups: seq<Group>)
    requires dir.log.Valid() && StateHash(dir.state) == HashOf(dir.canonical, start)
    modifies dir, dir.log
    ensures dir.log.Valid()
    ensures committed ==>
              && |groups| == |changes|
              && dir.log.appended == old(dir.log.appended) + AllRows(groups)
              && Chained(groups, HashOf(dir.canonical, start), StateHash(dir.state))
              && (forall k :: 0 <= k < |changes| ==> groups[k].txnId == changes[k].txnId && groups[k].rows != [])
  {
    hide PhaseTxn.CrashSafe, LogsRequest, IsSuffix, NoneTooLong, EntriesFor, Contents, AppendAll, Chained;
    groups := [];
    committed := true;
    var state := start;
    ghost var past := dir.log.appended;
    NothingChained(HashOf(dir.canonical, start));
    assert past + [] == past;
    for i := 0 to |changes|
      invariant dir.log.Valid() && |groups| == i
      invariant StateHash(dir.state) == HashOf(dir.canonical, state)
      invariant dir.log.appended == past + AllRows(groups)
      invariant Chained(groups, HashOf(dir.canonical, start), HashOf(dir.canonical, state))
      invariant forall k :: 0 <= k < i ==> groups[k].txnId == changes[k].txnId && groups[k].rows != []
    {
      ghost var logged := dir.log.appended;
      var request := Request(state, changes[i].after, changes[i].single, changes[i].several);
      var outcome, steps := dir.CommitTransaction(lock, request, changes[i].txnId, true);
      if outcome != Committed {
        return false, groups;
      }
      ghost var group := Group(dir.log.appended[|logged|..], changes[i].txnId, HashOf(dir.canonical, state),
                               Sha(dir.canonical(changes[i].after)));
      RowsAreCarried(group.rows, request, changes[i].txnId, group.before, group.after);
      OneMoreGroup(groups, group, HashOf(dir.canonical, start));
      assert dir.log.appended == logged + group.rows;
      assert past + AllRows(groups) + group.rows == past + (AllRows(groups) + group.rows);
      groups := groups + [group];
      state := Some(changes[i].after);
    }
  }

  lemma NothingChained(from: Hash)
    ensures Chained([], from, from) && AllRows([]) == []
  {
  }
}
