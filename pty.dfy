/**
 * The PTY commands of the desktop shell: a registry from caller-chosen session ids
 * to pseudo-terminal pairs, changed by create_pty, write_pty, resize_pty and
 * destroy_pty. The operating-system steps (openpty, spawn_command, take_writer,
 * write_all, flush, resize) are foreign; each is a parameter saying whether it
 * succeeded and, if not, with which message.
 */
module Pty {
  import opened Wrappers

  /** Rust's u16, the type of rows and cols in PtySize. */
  type U16 = x: int | 0 <= x < 0x1_0000

  /** Outcome of one foreign OS step: done, or failed with the error's to_string(). */
  datatype OsStep = Done | Failed(message: string)

  /**
   * One registered pseudo-terminal pair: which pair it is (the n-th one opened), its
   * current size, the shell started on it, and whether its master's single
   * writer has been taken.
   */
  datatype Handle = Handle(pair: nat, rows: U16, cols: U16, shell: string, writerTaken: bool)

  const NotFound: string := "PTY not found"
  const DefaultShell: string := "bash"
  const DefaultRows: U16 := 24
  const DefaultCols: U16 := 80

  /**
   * How the pseudo-terminal backend hands out a master's writer: once only. A
   * second take_writer is refused with `refusal`; `failedTakeUsesWriter` says
   * whether a take that fails after marking the writer as taken still uses it up.
   */
  datatype WriterPolicy = WriterPolicy(refusal: string, failedTakeUsesWriter: bool)

  /** A registry after a command, with the command's return value. */
  datatype Outcome = Outcome(pairs: map<string, Handle>, result: Result<()>)

  /** Every entry except the one for id is the same in both maps (and present in both or in neither). */
  predicate OthersUnchanged(before: map<string, Handle>, after: map<string, Handle>, id: string)
  {
    before - {id} == after - {id}
  }

  /** No two sessions share a pseudo-terminal pair, and every pair number is below `nextPair`. */
  predicate DistinctPairs(pairs: map<string, Handle>, nextPair: nat)
  {
    (forall k :: k in pairs ==> pairs[k].pair < nextPair) &&
    (forall k, k' :: k in pairs && k' in pairs && k != k' ==> pairs[k].pair != pairs[k'].pair)
  }

  /** shell.as_deref().unwrap_or("bash"). */
  function ShellName(shell: Option<string>): string
  {
    match shell
    case Some(name) => name
    case None => DefaultShell
  }

  // ---------------------------------------------------------------------------
  // The four commands as functions of the registry
  // ---------------------------------------------------------------------------

  /**
   * create_pty: open a pair of 24 rows by 80 columns, spawn the shell on it, then
   * insert it under id. An id already present is overwritten, not refused.
   */
  function CreateSpec(pairs: map<string, Handle>, id: string, shell: Option<string>, serial: nat,
                      open: OsStep, spawn: OsStep): (o: Outcome)
    ensures o.result.Ok? <==> open.Done? && spawn.Done?
    ensures open.Failed? ==> o == Outcome(pairs, Err(open.message))
    ensures open.Done? && spawn.Failed? ==> o == Outcome(pairs, Err(spawn.message))
    ensures o.result.Ok? ==> o.pairs.Keys == pairs.Keys + {id}
    ensures o.result.Ok? ==> o.pairs[id] == Handle(serial, DefaultRows, DefaultCols, ShellName(shell), false)
    ensures OthersUnchanged(pairs, o.pairs, id)
  {
    if open.Failed? then Outcome(pairs, Err(open.message))
    else if spawn.Failed? then Outcome(pairs, Err(spawn.message))
    else Outcome(pairs[id := Handle(serial, DefaultRows, DefaultCols, ShellName(shell), false)], Ok(()))
  }

  /**
   * write_pty: look the id up, take the master's writer, write the data and flush.
   * Once the writer has been taken it is gone, whatever the write and flush steps
   * then do; a failed take uses it up too when the policy says so.
   */
  function WriteSpec(pairs: map<string, Handle>, id: string, policy: WriterPolicy, take: OsStep,
                     writeAll: OsStep, flush: OsStep): (o: Outcome)
    ensures id !in pairs ==> o == Outcome(pairs, Err(NotFound))
    ensures o.pairs.Keys == pairs.Keys
    ensures OthersUnchanged(pairs, o.pairs, id)
    ensures id in pairs ==> o.pairs[id] == pairs[id].(writerTaken := o.pairs[id].writerTaken)
    ensures id in pairs && pairs[id].writerTaken ==> o == Outcome(pairs, Err(policy.refusal))
    ensures id in pairs && !pairs[id].writerTaken && take.Failed? ==> o.result == Err(take.message)
    ensures id in pairs && !pairs[id].writerTaken && take.Done? && writeAll.Failed? ==>
              o.result == Err(writeAll.message)
    ensures id in pairs && !pairs[id].writerTaken && take.Done? && writeAll.Done? && flush.Failed? ==>
              o.result == Err(flush.message)
    ensures id in pairs ==>
              (o.pairs[id].writerTaken <==> pairs[id].writerTaken || take.Done? || policy.failedTakeUsesWriter)
    ensures o.result.Ok? <==> id in pairs && !pairs[id].writerTaken && take.Done? && writeAll.Done? && flush.Done?
  {
    if id !in pairs then Outcome(pairs, Err(NotFound))
    else
      var h := pairs[id];
      if h.writerTaken then Outcome(pairs, Err(policy.refusal))
      else
        var taken := pairs[id := h.(writerTaken := true)];
        if take.Failed? then
          Outcome(if policy.failedTakeUsesWriter then taken else pairs, Err(take.message))
        else if writeAll.Failed? then Outcome(taken, Err(writeAll.message))
        else if flush.Failed? then Outcome(taken, Err(flush.message))
        else Outcome(taken, Ok(()))
  }

  /** resize_pty: look the id up and ask the master for the new size. */
  function ResizeSpec(pairs: map<string, Handle>, id: string, cols: U16, rows: U16, resize: OsStep): (o: Outcome)
    ensures id !in pairs ==> o == Outcome(pairs, Err(NotFound))
    ensures id in pairs && resize.Failed? ==> o == Outcome(pairs, Err(resize.message))
    ensures o.result.Ok? <==> id in pairs && resize.Done?
    ensures o.pairs.Keys == pairs.Keys
    ensures o.result.Ok? ==> o.pairs[id] == pairs[id].(rows := rows, cols := cols)
    ensures OthersUnchanged(pairs, o.pairs, id)
  {
    if id !in pairs then Outcome(pairs, Err(NotFound))
    else if resize.Failed? then Outcome(pairs, Err(resize.message))
    else Outcome(pairs[id := pairs[id].(rows := rows, cols := cols)], Ok(()))
  }

  /** destroy_pty: remove the id, present or not, and report success. */
  function DestroySpec(pairs: map<string, Handle>, id: string): (o: Outcome)
    ensures o.result == Ok(())
    ensures id !in o.pairs
    ensures o.pairs.Keys == pairs.Keys - {id}
    ensures OthersUnchanged(pairs, o.pairs, id)
  {
    Outcome(pairs - {id}, Ok(()))
  }

  // ---------------------------------------------------------------------------
  // Properties relating several commands
  // ---------------------------------------------------------------------------

  /** Destroying twice is destroying once. */
  lemma DestroyIdempotent(pairs: map<string, Handle>, id: string)
    ensures DestroySpec(DestroySpec(pairs, id).pairs, id) == DestroySpec(pairs, id)
  {
  }

  /** After destroy_pty, writing to or resizing the id reports "PTY not found" and changes nothing. */
  lemma NotFoundAfterDestroy(pairs: map<string, Handle>, id: string, policy: WriterPolicy, take: OsStep,
                             writeAll: OsStep, flush: OsStep, cols: U16, rows: U16, resize: OsStep)
    ensures var gone := DestroySpec(pairs, id).pairs;
            WriteSpec(gone, id, policy, take, writeAll, flush) == Outcome(gone, Err(NotFound)) &&
            ResizeSpec(gone, id, cols, rows, resize) == Outcome(gone, Err(NotFound))
  {
  }

  /** Repeating a successful resize with the same size leaves the registry as it is, whatever the OS does. */
  lemma ResizeIdempotent(pairs: map<string, Handle>, id: string, cols: U16, rows: U16,
                         first: OsStep, again: OsStep)
    requires ResizeSpec(pairs, id, cols, rows, first).result.Ok?
    ensures var once := ResizeSpec(pairs, id, cols, rows, first).pairs;
            ResizeSpec(once, id, cols, rows, again).pairs == once
  {
    var once := ResizeSpec(pairs, id, cols, rows, first).pairs;
    assert once[id].rows == rows && once[id].cols == cols;
    assert once[id := once[id].(rows := rows, cols := cols)] == once;
  }

  /**
   * Only one write_pty per session can get the writer: once a write has taken it
   * (or used it up with a failed take), every later write is refused at
   * take_writer and changes nothing, whatever the OS does.
   */
  lemma SecondWriteFails(pairs: map<string, Handle>, id: string, policy: WriterPolicy, take: OsStep,
                         writeAll: OsStep, flush: OsStep, take2: OsStep, writeAll2: OsStep, flush2: OsStep)
    requires id in pairs && (take.Done? || policy.failedTakeUsesWriter)
    ensures var after := WriteSpec(pairs, id, policy, take, writeAll, flush).pairs;
            WriteSpec(after, id, policy, take2, writeAll2, flush2) == Outcome(after, Err(policy.refusal))
  {
  }

  /**
   * create_pty on an id already in use replaces its handle by a new pair: the
   * number of sessions stays the same and the old pair is no longer reachable.
   */
  lemma CreateReplaces(pairs: map<string, Handle>, nextPair: nat, id: string, shell: Option<string>,
                       open: OsStep, spawn: OsStep)
    requires DistinctPairs(pairs, nextPair) && id in pairs
    requires CreateSpec(pairs, id, shell, nextPair, open, spawn).result.Ok?
    ensures var after := CreateSpec(pairs, id, shell, nextPair, open, spawn).pairs;
            |after| == |pairs| &&
            after[id].pair != pairs[id].pair &&
            forall k :: k in after ==> after[k].pair != pairs[id].pair
  {
    var after := CreateSpec(pairs, id, shell, nextPair, open, spawn).pairs;
    assert after.Keys == pairs.Keys;
    forall k | k in after ensures after[k].pair != pairs[id].pair {
      if k != id {
        assert (pairs - {id})[k] == (after - {id})[k];
      }
    }
  }

  /** create_pty keeps sessions on distinct pairs when the new pair is numbered past all others. */
  lemma CreateKeepsPairsDistinct(pairs: map<string, Handle>, nextPair: nat, id: string,
                                 shell: Option<string>, open: OsStep, spawn: OsStep)
    requires DistinctPairs(pairs, nextPair)
    ensures DistinctPairs(CreateSpec(pairs, id, shell, nextPair, open, spawn).pairs, nextPair + 1)
  {
    var c := CreateSpec(pairs, id, shell, nextPair, open, spawn).pairs;
    forall k | k in c && k != id ensures k in pairs && c[k] == pairs[k] {
      assert (pairs - {id})[k] == (c - {id})[k];
    }
  }

  /** write_pty keeps sessions on distinct pairs. */
  lemma WriteKeepsPairsDistinct(pairs: map<string, Handle>, nextPair: nat, id: string, policy: WriterPolicy,
                                take: OsStep, writeAll: OsStep, flush: OsStep)
    requires DistinctPairs(pairs, nextPair)
    ensures DistinctPairs(WriteSpec(pairs, id, policy, take, writeAll, flush).pairs, nextPair)
  {
    var w := WriteSpec(pairs, id, policy, take, writeAll, flush).pairs;
    forall k | k in w ensures k in pairs && w[k].pair == pairs[k].pair {
      if k != id { assert (pairs - {id})[k] == (w - {id})[k]; }
    }
  }

  /** resize_pty keeps sessions on distinct pairs. */
  lemma ResizeKeepsPairsDistinct(pairs: map<string, Handle>, nextPair: nat, id: string,
                                 cols: U16, rows: U16, resize: OsStep)
    requires DistinctPairs(pairs, nextPair)
    ensures DistinctPairs(ResizeSpec(pairs, id, cols, rows, resize).pairs, nextPair)
  {
    var z := ResizeSpec(pairs, id, cols, rows, resize).pairs;
    forall k | k in z ensures k in pairs && z[k].pair == pairs[k].pair {
      if k != id { assert (pairs - {id})[k] == (z - {id})[k]; }
    }
  }

  // ---------------------------------------------------------------------------
  // The registry object
  // ---------------------------------------------------------------------------

  /**
   * PTY_PAIRS, with the count of pairs opened so far naming each new pair and the
   * platform's writer policy.
   */
  class PtyRegistry {
    var pairs: map<string, Handle>
    var nextPair: nat
    const policy: WriterPolicy

    ghost predicate Valid()
      reads this
    {
      DistinctPairs(pairs, nextPair)
    }

    /** The lazily created, initially empty HashMap. */
    constructor (policy: WriterPolicy)
      ensures Valid() && pairs == map[] && nextPair == 0 && this.policy == policy
    {
      pairs := map[];
      nextPair := 0;
      this.policy := policy;
    }

    /** create_pty (pty.rs). */
    method CreatePty(id: string, shell: Option<string>, open: OsStep, spawn: OsStep) returns (r: Result<()>)
      requires Valid()
      modifies this
      ensures Valid()
      ensures nextPair == old(nextPair) + (if open.Done? then 1 else 0)
      ensures pairs == CreateSpec(old(pairs), id, shell, old(nextPair), open, spawn).pairs
      ensures r == CreateSpec(old(pairs), id, shell, old(nextPair), open, spawn).result
    {
      CreateKeepsPairsDistinct(pairs, nextPair, id, shell, open, spawn);
      if open.Failed? {
        return Err(open.message);
      }
      var pair := nextPair;
      nextPair := nextPair + 1;
      var program := ShellName(shell);
      if spawn.Failed? {
        return Err(spawn.message);
      }
      pairs := pairs[id := Handle(pair, DefaultRows, DefaultCols, program, false)];
      r := Ok(());
    }

    /** write_pty (pty.rs); `data` goes to the foreign writer and is not kept. */
    method WritePty(id: string, data: string, take: OsStep, writeAll: OsStep, flush: OsStep)
      returns (r: Result<()>)
      requires Valid()
      modifies this
      ensures Valid() && nextPair == old(nextPair)
      ensures pairs == WriteSpec(old(pairs), id, policy, take, writeAll, flush).pairs
      ensures r == WriteSpec(old(pairs), id, policy, take, writeAll, flush).result
    {
      WriteKeepsPairsDistinct(pairs, nextPair, id, policy, take, writeAll, flush);
      if id !in pairs {
        return Err(NotFound);
      }
      var h := pairs[id];
      if h.writerTaken {
        return Err(policy.refusal);
      }
      if take.Failed? {
        if policy.failedTakeUsesWriter {
          pairs := pairs[id := h.(writerTaken := true)];
        }
        return Err(take.message);
      }
      pairs := pairs[id := h.(writerTaken := true)];
      if writeAll.Failed? {
        return Err(writeAll.message);
      }
      if flush.Failed? {
        return Err(flush.message);
      }
      r := Ok(());
    }

    /** resize_pty (pty.rs). */
    method ResizePty(id: string, cols: U16, rows: U16, resize: OsStep) returns (r: Result<()>)
      requires Valid()
      modifies this
      ensures Valid() && nextPair == old(nextPair)
      ensures pairs == ResizeSpec(old(pairs), id, cols, rows, resize).pairs
      ensures r == ResizeSpec(old(pairs), id, cols, rows, resize).result
    {
      ResizeKeepsPairsDistinct(pairs, nextPair, id, cols, rows, resize);
      if id !in pairs {
        return Err(NotFound);
      }
      if resize.Failed? {
        return Err(resize.message);
      }
      pairs := pairs[id := pairs[id].(rows := rows, cols := cols)];
      r := Ok(());
    }

    /** destroy_pty (pty.rs). */
    method DestroyPty(id: string) returns (r: Result<()>)
      requires Valid()
      modifies this
      ensures Valid() && nextPair == old(nextPair)
      ensures pairs == DestroySpec(old(pairs), id).pairs
      ensures r == DestroySpec(old(pairs), id).result
    {
      pairs := pairs - {id};
      r := Ok(());
    }
  }
}
