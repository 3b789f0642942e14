/**
 The shadow of a device's transmit ring (`ff_txring_enqueue` in `lib/ff_memory.c`): a packet of n segments
 takes n descriptors, and its buffer may be freed once the ring has gone all the way round.
 */
module TxRing {
  import opened Options

  const TX_QUEUE_SIZE := 512

  type Buf = int

  /** The buffers in a stretch of descriptors, in order. */
  function Buffers(log: seq<Option<Buf>>): seq<Buf> {
    if log == [] then []
    else
      var n := |log| - 1;
      if log[n].Some? then Buffers(log[..n]) + [log[n].value] else Buffers(log[..n])
  }

  lemma BuffersSnoc(log: seq<Option<Buf>>, x: Option<Buf>)
    ensures Buffers(log + [x]) == if x.Some? then Buffers(log) + [x.value] else Buffers(log)
  {
    assert (log + [x])[..|log|] == log;
  }

  lemma {:induction false} BuffersSplit(log: seq<Option<Buf>>, k: nat)
    requires k <= |log|
    ensures Buffers(log) == Buffers(log[..k]) + Buffers(log[k..])
  {
    var n := |log| - 1;
    if k == |log| {
      assert log[..k] == log && log[k..] == [];
    } else {
      BuffersSplit(log[..n], k);
      assert log[..n][..k] == log[..k] && log[..n][k..] == log[k..n];
      assert log[k..][..n - k] == log[k..n];
    }
  }

  /** They stand at these places, in this order, and there is none at any other. */
  ghost predicate Places(log: seq<Option<Buf>>, bufs: seq<Buf>, at: seq<nat>) {
    && |at| == |bufs| && (forall i, j :: 0 <= i < j < |at| ==> at[i] < at[j])
    && (forall i :: 0 <= i < |at| ==> at[i] < |log| && log[at[i]] == Some(bufs[i]))
    && forall k: nat :: k < |log| && log[k].Some? ==> k in at
  }

  lemma {:induction false} BuffersAre(log: seq<Option<Buf>>) returns (at: seq<nat>)
    ensures Places(log, Buffers(log), at)
  {
    at := [];
    if log != [] {
      var n := |log| - 1;
      at := BuffersAre(log[..n]);
      ghost var before := at;
      if log[n].Some? {
        at := at + [n];
        assert at[|at| - 1] == n;
      }
      forall k: nat | k < |log| && log[k].Some? ensures k in at {
        if k < n {
          assert log[..n][k] == log[k];
          assert k in before;
        }
      }
    }
  }

  /** How much of the log the ring no longer remembers. */
  function Gone(n: nat): nat { if n < TX_QUEUE_SIZE then 0 else n - TX_QUEUE_SIZE }

  /** A table of 512 slots in which each of the last 512 descriptors is at its own place. */
  ghost predicate Kept(t: seq<Option<Buf>>, log: seq<Option<Buf>>) {
    && |t| == TX_QUEUE_SIZE
    && (forall k {:trigger log[k]} :: Gone(|log|) <= k < |log| ==> t[k % TX_QUEUE_SIZE] == log[k])
    && (forall i :: |log| <= i < TX_QUEUE_SIZE ==> t[i] == None)
  }

  lemma OneRound(k: nat, n: nat)
    requires n - TX_QUEUE_SIZE < k < n
    ensures k % TX_QUEUE_SIZE != n % TX_QUEUE_SIZE
  {
  }

  /** The next descriptor takes the place of the one 512 before it. */
  lemma PostKeeps(t: seq<Option<Buf>>, log: seq<Option<Buf>>, x: Option<Buf>)
    requires Kept(t, log)
    ensures Kept(t[|log| % TX_QUEUE_SIZE := x], log + [x])
  {
    var n, log' := |log|, log + [x];
    forall k | Gone(n + 1) <= k < n + 1 ensures t[n % TX_QUEUE_SIZE := x][k % TX_QUEUE_SIZE] == log'[k] {
      if k < n {
        OneRound(k, n);
        assert log'[k] == log[k];
      }
    }
  }

  /** What stands in the slot at the head. */
  lemma Occupant(t: seq<Option<Buf>>, log: seq<Option<Buf>>)
    requires Kept(t, log)
    ensures t[|log| % TX_QUEUE_SIZE] == if |log| < TX_QUEUE_SIZE then None else log[|log| - TX_QUEUE_SIZE]
  {
    if |log| >= TX_QUEUE_SIZE {
      var k := |log| - TX_QUEUE_SIZE;
      assert log[k] == t[k % TX_QUEUE_SIZE];
    }
  }

  class Ring {
    const table: array<Option<Buf>>
    var head: nat
    var freed: seq<Buf>                 // every call of `ff_mbuf_free`, in order

    ghost var log: seq<Option<Buf>>     // every descriptor ever posted

    /** The ring holds the last 512 descriptors, each at its own place, and all buffers before them have been freed. */
    ghost predicate Valid()
      reads this, table
    {
      && Kept(table[..], log) && head == |log| % TX_QUEUE_SIZE
      && freed == Buffers(log[..Gone(|log|)])
    }

    constructor ()
      ensures Valid() && log == [] && freed == [] && fresh(table)
    {
      table := new Option<Buf>[TX_QUEUE_SIZE](_ => None);
      head, freed, log := 0, [], [];
    }

    /** Free the occupant of the slot at the head, put x there, and move on. */
    method Post(x: Option<Buf>)
      requires Valid()
      modifies this, table
      ensures Valid() && log == old(log) + [x]
    {
      var occupant := table[head];
      Occupant(table[..], log);
      FreedNext(log, x, occupant);
      if occupant.Some? {
        freed := freed + [occupant.value];
      }
      Place(x);
      log := log + [x];
    }

    /** Store x and move the head, around the end of the ring. */
    method Place(x: Option<Buf>)
      requires Kept(table[..], log) && head == |log| % TX_QUEUE_SIZE
      modifies table, `head
      ensures Kept(table[..], log + [x]) && head == (|log| + 1) % TX_QUEUE_SIZE
    {
      ghost var t := table[..];
      PostKeeps(t, log, x);
      table[head] := x;
      assert table[..] == t[head := x];
      head := if head + 1 >= TX_QUEUE_SIZE then 0 else head + 1;
    }

    /** `ff_txring_enqueue`: a descriptor for each segment, all empty but the last, which has the buffer. */
    method Enqueue(p: Option<Buf>, segNum: int)
      requires Valid()
      modifies this, table
      ensures Valid() && old(log) <= log && |log| == |old(log)| + if segNum > 1 then segNum else 1
      ensures log[|log| - 1] == p && forall k :: |old(log)| <= k < |log| - 1 ==> log[k] == None
    {
      var i := 0;
      while i < segNum - 1
        invariant 0 <= i && (segNum >= 1 ==> i <= segNum - 1) && (segNum < 1 ==> i == 0)
        invariant Valid() && log == old(log) + seq(i, _ => None)
      {
        Post(None);
        i := i + 1;
      }
      Post(p);
    }

    /**
     After any run: the buffers ever posted are those freed, in order, followed by those still in the ring.
     Those freed are, each once, the ones at the places `at`: all that were posted before the last 512 descriptors.
     */
    lemma Conservation() returns (at: seq<nat>)
      requires Valid()
      ensures Buffers(log) == freed + Buffers(log[Gone(|log|)..])
      ensures Places(log[..if |log| < 512 then 0 else |log| - 512], freed, at)
      ensures forall k :: 0 <= k < |log| && |log| - 512 <= k ==> table[k % 512] == log[k]
    {
      BuffersSplit(log, Gone(|log|));
      at := BuffersAre(log[..Gone(|log|)]);
      forall k | 0 <= k < |log| && |log| - 512 <= k ensures table[k % 512] == log[k] {
        assert table[..][k % TX_QUEUE_SIZE] == log[k];
      }
    }
  }

  lemma FreedNext(log: seq<Option<Buf>>, x: Option<Buf>, occupant: Option<Buf>)
    requires if |log| < TX_QUEUE_SIZE then occupant == None else occupant == log[|log| - TX_QUEUE_SIZE]
    ensures var freed := Buffers(log[..Gone(|log|)]);
            Buffers((log + [x])[..Gone(|log| + 1)]) == if occupant.Some? then freed + [occupant.value] else freed
  {
    var g := Gone(|log|);
    if |log| < TX_QUEUE_SIZE {
      assert (log + [x])[..Gone(|log| + 1)] == log[..g];
    } else {
      assert (log + [x])[..g + 1] == log[..g] + [log[g]];
      BuffersSnoc(log[..g], log[g]);
    }
  }
}
