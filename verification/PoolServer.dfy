/**
  The pool server's state, changed in place between awaits, against the event model
  (src/poolserver.js:97-102, 154-281).
 */
module PoolServerModule {
  import opened Common
  import opened Types
  import Pplns
  import opened PoolBooks

  /** What the process keeps in `this.state` and a save writes to the file. */
  datatype State = State(blocks: seq<BlockRec>, balances: map<Address, int>, paid: map<Address, int>,
                         payments: seq<Payment>, feesEarned: int)

  /** The records the two lists have dropped. */
  datatype History = History(blocks: seq<BlockRec>, payments: seq<Payment>)

  ghost function WithHistory(s: State, h: History): Books {
    Books(s.blocks, s.balances, s.paid, s.payments, s.feesEarned, h.blocks, h.payments)
  }

  class PoolServer {
    var state: State
    var file: State
    var paying: bool
    var due: seq<Due>
    var inFlight: bool
    // Dropped records, as the process knows them and as they were at the last save.
    ghost var dropped: History
    ghost var droppedAtSave: History

    ghost function Contents(): World
      reads this
    {
      World(WithHistory(state, dropped), WithHistory(file, droppedAtSave), paying, due, inFlight)
    }

    constructor ()
      ensures Contents() == NEW_POOL
    {
      state, file := State([], map[], map[], [], 0), State([], map[], map[], [], 0);
      paying, due, inFlight := false, [], false;
      dropped, droppedAtSave := History([], []), History([], []);
    }

    /** Atomic: the whole file or none of it. */
    method Save()
      modifies this`file, this`droppedAtSave
      ensures Contents() == Saved(old(Contents()))
    {
      file := state;
      droppedAtSave := dropped;
    }

    /** Start again from the file: whatever was under way is gone. */
    method Load()
      modifies this
      ensures Contents() == AfterCrash(old(Contents()))
    {
      state, dropped := file, droppedAtSave;
      paying, due, inFlight := false, [], false;
    }

    /** A block the local node took: its reward is split there and then, and recorded as pending
        (src/poolserver.js:171-185). */
    method RecordBlock(core: Pplns.PoolCore, hash: Hash, height: nat, reward: nat, difficulty: nat)
      returns (rec: BlockRec)
      requires core.feeBps <= Pplns.BPS
      modifies this
      ensures Enabled(old(Contents()), Found(rec)) && rec.hash == hash && rec.reward == reward
      ensures core.Splits(rec.credits, rec.fee, reward, difficulty)
      ensures Contents() == AfterFound(old(Contents()), rec)
    {
      hide Pplns.PoolCore.Splits;
      var credits, fee := core.SplitReward(reward, difficulty);
      rec := BlockRec(hash, height, reward, fee, credits, Pending);
      dropped := dropped.(blocks := Suffix([rec] + state.blocks, MAX_BLOCKS) + dropped.blocks);
      state := state.(blocks := Prefix([rec] + state.blocks, MAX_BLOCKS));
      Save();
    }

    /** One record's status, in the list or among those it has dropped. */
    method SetStatus(cut: bool, i: nat, status: BlockStatus)
      requires i < |ListOf(Contents().mem, cut)|
      modifies this`state, this`dropped
      ensures Contents() == old(Contents()).(mem := WithStatus(old(Contents()).mem, cut, i, status))
    {
      if cut {
        dropped := dropped.(blocks := dropped.blocks[i := dropped.blocks[i].(status := status)]);
      } else {
        state := state.(blocks := state.blocks[i := state.blocks[i].(status := status)]);
      }
    }

    /** A pending block the chain has replaced, ten deep. */
    method MarkOrphaned(cut: bool, i: nat)
      requires Enabled(Contents(), Orphan(cut, i))
      modifies this`state, this`dropped
      ensures Contents() == AfterOrphan(old(Contents()), cut, i)
    {
      SetStatus(cut, i, Orphaned);
    }

    /** A pending block that matured: its credits become balances, once (src/poolserver.js:208-214). */
    method Confirm(rec: BlockRec, cut: bool, i: nat)
      requires Enabled(Contents(), Mature(cut, i)) && ListOf(Contents().mem, cut)[i] == rec
      modifies this`state, this`dropped
      ensures Contents() == AfterMature(old(Contents()), cut, i)
    {
      hide Credited;
      var left: map<Address, nat>, balances: map<Address, int> := rec.credits, state.balances;
      while left != map[]
        invariant unchanged(this)
        invariant Credited(balances, left) == Credited(old(state.balances), rec.credits)
        decreases |left|
      {
        ghost var some := Pick(left.Keys);
        var a: Address :| a in left.Keys;
        CreditedOne(balances, left, a);
        balances := balances[a := Get(balances, a) + left[a]];
        left := left - {a};
      }
      CreditedNothing(balances);
      state := state.(balances := balances, feesEarned := state.feesEarned + rec.fee);
      SetStatus(cut, i, Confirmed);
    }

    /** Everybody owed at least the minimum, at the balances of this moment. */
    static method DueNow(balances: map<Address, int>, minPayout: int) returns (due: seq<Due>)
      ensures DueFrom(due, balances, minPayout)
    {
      due := [];
      var left := balances.Keys;
      while left != {}
        invariant left <= balances.Keys
        invariant forall k :: 0 <= k < |due| ==>
                    due[k].to in balances && due[k].to !in left && balances[due[k].to] == due[k].amount >= minPayout
        invariant forall j, k :: 0 <= j < k < |due| ==> due[j].to != due[k].to
        invariant forall a <- balances :: a in left || balances[a] < minPayout || Listed(due, a)
        decreases left
      {
        ghost var some := Pick(left);
        var a: Address :| a in left;
        if balances[a] >= minPayout {
          ListedStays(due, Due(a, balances[a]));
          due := due + [Due(a, balances[a])];
        }
        left := left - {a};
      }
    }

    /** payout picks who is due (src/poolserver.js:231-233). */
    method StartPayout(minPayout: int)
      requires Enabled(Contents(), PayoutStarts(minPayout))
      modifies this`paying, this`due, this`inFlight
      ensures DueFrom(due, state.balances, minPayout)
      ensures Contents() == old(Contents()).(paying := true, due := due, inFlight := false)
    {
      due := DueNow(state.balances, minPayout);
      paying, inFlight := true, false;
    }

    /** The next payment leaves the balance and reaches the file, then the network (src/poolserver.js:254-258). */
    method DebitNext()
      requires Enabled(Contents(), Debit)
      modifies this
      ensures Contents() == AfterDebit(old(Contents()))
    {
      var d := due[0];
      state := state.(balances := state.balances[d.to := Get(state.balances, d.to) - d.amount],
                      payments := [Payment(d.to, d.amount, Sending)] + state.payments);
      inFlight := true;
      Save();
    }

    method BroadcastAccepted()
      requires Enabled(Contents(), Accepted)
      modifies this
      ensures Contents() == AfterAccepted(old(Contents()))
    {
      var d := due[0];
      state := state.(payments := state.payments[0 := state.payments[0].(status := Sent)],
                      paid := state.paid[d.to := Get(state.paid, d.to) + d.amount]);
      inFlight, due := false, due[1..];
      Save();
    }

    /** Not accepted by the node: the balance comes back (src/poolserver.js:266-270). */
    method BroadcastRefused()
      requires Enabled(Contents(), Refused)
      modifies this
      ensures Contents() == AfterRefused(old(Contents()))
    {
      var d := due[0];
      state := state.(balances := state.balances[d.to := Get(state.balances, d.to) + d.amount],
                      payments := state.payments[0 := state.payments[0].(status := Failed)]);
      inFlight, due := false, due[1..];
      Save();
    }

    method MarkMined(i: nat)
      requires Enabled(Contents(), MinedPayment(i))
      modifies this`state
      ensures Contents() == AfterMined(old(Contents()), i)
    {
      state := state.(payments := state.payments[i := state.payments[i].(status := Mined)]);
    }

    method EndPayout()
      requires Enabled(Contents(), PayoutEnds)
      modifies this
      ensures Contents() == AfterPayout(old(Contents()))
    {
      dropped := dropped.(payments := Suffix(state.payments, MAX_PAYMENTS) + dropped.payments);
      state := state.(payments := Prefix(state.payments, MAX_PAYMENTS));
      paying, due := false, [];
      Save();
    }
  }

  lemma ListedStays(due: seq<Due>, d: Due)
    ensures Listed(due + [d], d.to)
    ensures forall a :: Listed(due, a) ==> Listed(due + [d], a)
  {
    assert (due + [d])[|due|] == d;
    forall a | Listed(due, a)
      ensures Listed(due + [d], a)
    {
      var k :| 0 <= k < |due| && due[k].to == a;
      assert (due + [d])[k].to == a;
    }
  }
}
