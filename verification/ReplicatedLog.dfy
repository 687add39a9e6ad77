/** The shared log and its epoch fold: which records of the log count
    (src/cluster.rs, src/main.rs). */
module ReplicatedLog {
  import opened Model

  datatype LogRecord =
    | Fence(epoch: U64, holder: Text)
    | Operations(epoch: U64, operations: seq<Operation>)

  type Log = seq<LogRecord>

  function Max(a: U64, b: U64): U64 { if a < b then b else a }

  /** The fencing epoch after reading `log`, starting from `epoch`. */
  function ActiveFrom(epoch: U64, log: Log): U64 {
    if log == [] then epoch
    else
      var before := ActiveFrom(epoch, log[..|log| - 1]);
      match log[|log| - 1]
      case Fence(e, _) => Max(before, e)
      case Operations(_, _) => before
  }

  function Active(log: Log): U64 { ActiveFrom(0, log) }

  /** Every replica's verdict on the record at `at`: it depends on the records before
      `at` alone. */
  predicate Accepts(log: Log, at: nat) {
    at < |log| && log[at].Operations? && log[at].epoch == Active(log[..at])
  }

  /** The operations that reach balances and history when `log` is folded from `epoch`. */
  function AcceptedFrom(epoch: U64, log: Log): seq<Operation> {
    if log == [] then []
    else
      var m := |log| - 1;
      AcceptedFrom(epoch, log[..m]) + Yield(ActiveFrom(epoch, log[..m]), log[m])
  }

  function Yield(active: U64, record: LogRecord): seq<Operation> {
    if record.Operations? && record.epoch == active then record.operations else []
  }

  function Accepted(log: Log): seq<Operation> { AcceptedFrom(0, log) }

  // ----- The fold can be cut anywhere -----

  lemma {:induction false} FoldResumes(epoch: U64, a: Log, b: Log)
    ensures ActiveFrom(epoch, a + b) == ActiveFrom(ActiveFrom(epoch, a), b)
    ensures AcceptedFrom(epoch, a + b) == AcceptedFrom(epoch, a) + AcceptedFrom(ActiveFrom(epoch, a), b)
  {
    if b == [] {
      assert a + b == a;
    } else {
      var m := |b| - 1;
      assert (a + b)[..|a + b| - 1] == a + b[..m];
      FoldResumes(epoch, a, b[..m]);
    }
  }

  lemma FoldSplits(log: Log, at: nat)
    requires at <= |log|
    ensures Active(log) == ActiveFrom(Active(log[..at]), log[at..])
    ensures Accepted(log) == Accepted(log[..at]) + AcceptedFrom(Active(log[..at]), log[at..])
  {
    assert log == log[..at] + log[at..];
    FoldResumes(0, log[..at], log[at..]);
  }

  lemma FoldOfOneMore(epoch: U64, log: Log, n: nat)
    requires n < |log|
    ensures AcceptedFrom(epoch, log[..n + 1]) == AcceptedFrom(epoch, log[..n]) + Yield(ActiveFrom(epoch, log[..n]), log[n])
    ensures ActiveFrom(epoch, log[..n + 1]) ==
              match log[n] { case Fence(e, _) => Max(ActiveFrom(epoch, log[..n]), e) case _ => ActiveFrom(epoch, log[..n]) }
  {
    assert log[..n + 1][..n] == log[..n];
  }

  lemma AppendFold(log: Log, record: LogRecord)
    ensures Accepted(log + [record]) == Accepted(log) + Yield(Active(log), record)
    ensures forall op :: op in Accepted(log) ==> op in Accepted(log + [record])
  {
    assert (log + [record])[..|log|] == log;
  }

  // ----- Fencing -----

  lemma {:induction false} ActiveBoundsFences(epoch: U64, log: Log)
    ensures ActiveFrom(epoch, log) >= epoch
    ensures forall i :: 0 <= i < |log| && log[i].Fence? ==> log[i].epoch <= ActiveFrom(epoch, log)
    ensures ActiveFrom(epoch, log) == epoch
            || exists i :: 0 <= i < |log| && log[i].Fence? && log[i].epoch == ActiveFrom(epoch, log)
  {
    if log != [] {
      var m := |log| - 1;
      ActiveBoundsFences(epoch, log[..m]);
      assert forall i :: 0 <= i < m ==> log[..m][i] == log[i];
      if !(log[m].Fence? && log[m].epoch == ActiveFrom(epoch, log)) && ActiveFrom(epoch, log) != epoch {
        var i :| 0 <= i < m && log[..m][i].Fence? && log[..m][i].epoch == ActiveFrom(epoch, log[..m]);
        assert log[i].Fence?;
      }
    }
  }

  /** The active epoch never decreases along a log. */
  lemma EpochNeverDecreases(log: Log, n: nat, m: nat)
    requires n <= m <= |log|
    ensures Active(log[..n]) <= Active(log[..m])
  {
    assert log[..m][..n] == log[..n];
    FoldSplits(log[..m], n);
    ActiveBoundsFences(Active(log[..n]), log[..m][n..]);
  }

  /** After a fence no record of a smaller epoch is accepted, whoever wrote it. */
  lemma FenceDeposesOlderEpochs(log: Log, fence: nat, at: nat)
    requires fence < at < |log| && log[fence].Fence? && log[at].Operations?
    requires log[at].epoch < log[fence].epoch
    ensures !Accepts(log, at)
    ensures Accepted(log[..at + 1]) == Accepted(log[..at])
  {
    EpochNeverDecreases(log, fence + 1, at);
    FoldOfOneMore(0, log, fence);
    FoldOfOneMore(0, log, at);
  }

  /** An accepted record contributes exactly its operations. */
  lemma AcceptedRecordCounts(log: Log, at: nat)
    requires Accepts(log, at)
    ensures forall op :: op in log[at].operations ==> op in Accepted(log)
  {
    FoldOfOneMore(0, log, at);
    FoldSplits(log, at + 1);
  }

  /** Acceptance of a record is settled once it is written. */
  lemma AcceptanceIsStable(log: Log, more: Log, at: nat)
    requires at < |log|
    ensures Accepts(log + more, at) <==> Accepts(log, at)
  {
    assert (log + more)[..at] == log[..at];
  }

  /** A record is accepted exactly when its own epoch was fenced before it and no
      higher epoch was. Epoch zero stands for "no fence yet". */
  lemma AcceptedIffFenced(log: Log, at: nat)
    requires at < |log| && log[at].Operations? && log[at].epoch > 0
    ensures Accepts(log, at) <==>
            (exists i :: 0 <= i < at && log[i].Fence? && log[i].epoch == log[at].epoch)
            && (forall i :: 0 <= i < at && log[i].Fence? ==> log[i].epoch <= log[at].epoch)
  {
    var e := log[at].epoch;
    ActiveBoundsFences(0, log[..at]);
    assert forall i :: 0 <= i < at ==> log[..at][i] == log[i];
    if Accepts(log, at) {
      var i :| 0 <= i < |log[..at]| && log[..at][i].Fence? && log[..at][i].epoch == Active(log[..at]);
      assert log[i].Fence? && log[i].epoch == e;
    }
  }

  /** Epoch zero counts as long as no fence has named an epoch. */
  lemma AcceptedUnfencedIff(log: Log, at: nat)
    requires at < |log| && log[at].Operations? && log[at].epoch == 0
    ensures Accepts(log, at) <==> forall i :: 0 <= i < at && log[i].Fence? ==> log[i].epoch == 0
  {
    ActiveBoundsFences(0, log[..at]);
    assert forall i :: 0 <= i < at ==> log[..at][i] == log[i];
  }

  /** Record by record: an accepted record adds its operations, in their order, and every
      other record adds nothing. */
  lemma AcceptedGrowsBy(log: Log, at: nat)
    requires at < |log|
    ensures Accepted(log[..at + 1]) == Accepted(log[..at]) + if Accepts(log, at) then log[at].operations else []
  {
    FoldOfOneMore(0, log, at);
  }

  /** What counts is exactly what sits in accepted records. */
  lemma {:induction false} AcceptedMembers(log: Log, op: Operation)
    ensures op in Accepted(log) <==> exists at: nat :: Accepts(log, at) && op in log[at].operations
  {
    hide AcceptedFrom, ActiveFrom;
    if log == [] {
      NothingAccepted();
    } else {
      var m := |log| - 1;
      AcceptedMembers(log[..m], op);
      assert log[..m + 1] == log;
      AcceptedGrowsBy(log, m);
      forall at: nat | at < m ensures Accepts(log, at) <==> Accepts(log[..m], at) {
        assert log[..m][..at] == log[..at];
      }
    }
  }

  lemma NothingAccepted()
    ensures Accepted([]) == [] && forall at: nat :: !Accepts([], at)
  {
  }
}
