/** The downstream consumer: it drops every execution ID it has seen and adds up the rest. */
module Consumer {
  import opened Sums

  datatype Message = Message(executionId: string, qty: real)

  function Amounts(ms: seq<Message>): (qs: seq<real>)
    ensures |qs| == |ms|
  {
    seq(|ms|, i requires 0 <= i < |ms| => ms[i].qty)
  }

  /** The last message repeats an earlier one's ID. */
  predicate Repeats(ms: seq<Message>)
    requires ms != []
  {
    var n := |ms| - 1;
    exists i :: 0 <= i < n && ms[i].executionId == ms[n].executionId
  }

  function Heard(ms: seq<Message>): real {
    if ms == [] then 0.0
    else Heard(ms[..|ms| - 1]) + if Repeats(ms) then 0.0 else ms[|ms| - 1].qty
  }

  function Dropped(ms: seq<Message>): real {
    if ms == [] then 0.0
    else Dropped(ms[..|ms| - 1]) + if Repeats(ms) then ms[|ms| - 1].qty else 0.0
  }

  predicate DistinctIds(ms: seq<Message>) {
    forall i, j :: 0 <= i < j < |ms| ==> ms[i].executionId != ms[j].executionId
  }

  lemma AmountsSnoc(ms: seq<Message>)
    requires ms != []
    ensures Amounts(ms)[..|ms| - 1] == Amounts(ms[..|ms| - 1])
  {}

  /** Every message is heard or dropped. */
  lemma {:induction false} HeardPlusDropped(ms: seq<Message>)
    ensures Heard(ms) + Dropped(ms) == Sum(Amounts(ms))
  {
    hide Repeats;
    if ms != [] {
      HeardPlusDropped(ms[..|ms| - 1]);
      AmountsSnoc(ms);
    }
  }

  /** Of positive amounts nothing is dropped exactly when no ID comes twice. */
  lemma {:induction false} DroppedIffRepeated(ms: seq<Message>)
    requires forall i :: 0 <= i < |ms| ==> ms[i].qty > 0.0
    ensures Dropped(ms) >= 0.0
    ensures Dropped(ms) == 0.0 <==> DistinctIds(ms)
  {
    if ms != [] {
      hide Dropped;
      var n := |ms| - 1;
      DroppedIffRepeated(ms[..n]);
      DroppedSnoc(ms);
      DistinctSnoc(ms);
    }
  }

  lemma DroppedSnoc(ms: seq<Message>)
    requires ms != []
    ensures Dropped(ms) == Dropped(ms[..|ms| - 1]) + if Repeats(ms) then ms[|ms| - 1].qty else 0.0
  {}

  lemma DistinctSnoc(ms: seq<Message>)
    requires ms != []
    ensures DistinctIds(ms) <==> DistinctIds(ms[..|ms| - 1]) && !Repeats(ms)
  {
    var n := |ms| - 1;
    if DistinctIds(ms[..n]) && !Repeats(ms) {
      forall i, j | 0 <= i < j < |ms|
        ensures ms[i].executionId != ms[j].executionId
      {
        if j < n {
          assert ms[..n][i].executionId != ms[..n][j].executionId;
        }
      }
    }
    if DistinctIds(ms) {
      forall i, j | 0 <= i < j < n
        ensures ms[..n][i].executionId != ms[..n][j].executionId
      {
        assert ms[i].executionId != ms[j].executionId;
      }
    }
  }

  /** Distinct IDs are all heard, whatever the amounts. */
  lemma {:induction false} DistinctAreHeard(ms: seq<Message>)
    requires DistinctIds(ms)
    ensures Dropped(ms) == 0.0 && Heard(ms) == Sum(Amounts(ms))
  {
    HeardPlusDropped(ms);
    if ms != [] {
      DistinctSnoc(ms);
      DistinctAreHeard(ms[..|ms| - 1]);
    }
  }
}
