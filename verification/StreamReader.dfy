/** The looping request source (orchestrator/requests/streamreader.go): a file of JSON
    values, read in order and rewound at its end. */
module RequestStream {
  import opened Wrappers
  import opened Types
  import opened Arithmetic

  /** A value of the file as the decoder meets it: a request, a JSON value of another shape
      (reported and skipped), or text that is not JSON (reported for ever after). */
  datatype Entry = Record(spec: RequestSpec) | Mistyped | Corrupt

  datatype NextResult = Served(spec: RequestSpec) | DecodeError | CannotRewind

  /** One turn of the reading loop: the new position, and the result if the loop ends there. */
  function Turn(entries: seq<Entry>, seekable: bool, position: nat): (nat, Option<NextResult>)
    requires position <= |entries|
  {
    if position == |entries| then
      (if seekable then (0, None) else (position, Some(CannotRewind)))
    else
      match entries[position]
      case Record(spec) => (position + 1, Some(Served(spec)))
      case Mistyped => (position + 1, Some(DecodeError))
      case Corrupt => (position, Some(DecodeError))
  }

  /** The loop run for a number of turns. */
  function Turns(entries: seq<Entry>, seekable: bool, position: nat, n: nat): (r: (nat, Option<NextResult>))
    requires position <= |entries|
    ensures r.0 <= |entries|
  {
    if n == 0 then (position, None)
    else
      var (next, result) := Turn(entries, seekable, position);
      if result.Some? then (next, result) else Turns(entries, seekable, next, n - 1)
  }

  lemma TwoTurnsEnd(entries: seq<Entry>, seekable: bool, position: nat)
    requires position <= |entries| && (entries != [] || !seekable)
    ensures Turns(entries, seekable, position, 2).1.Some?
  {
    TwoTurns(entries, seekable, position);
    if position == |entries| && seekable {
      assert Turns(entries, seekable, 0, 1) == Turn(entries, seekable, 0);
    }
  }

  /** Reading ends, and within two turns (one rewind), exactly unless the file can be rewound but holds nothing. */
  lemma ReadingEndsUnlessEmpty(entries: seq<Entry>, seekable: bool, position: nat)
    requires position <= |entries|
    ensures (exists n: nat :: Turns(entries, seekable, position, n).1.Some?) <==> entries != [] || !seekable
    ensures entries != [] || !seekable ==> Turns(entries, seekable, position, 2).1.Some?
  {
    if entries == [] && seekable {
      forall n: nat
        ensures Turns(entries, seekable, position, n).1.None?
      {
        EmptyFileLoops(n);
      }
    } else {
      TwoTurnsEnd(entries, seekable, position);
    }
  }

  lemma {:induction false} EmptyFileLoops(n: nat)
    ensures Turns([], true, 0, n) == (0, None)
  {
    if n > 0 {
      EmptyFileLoops(n - 1);
    }
  }

  /** Where a read starts and what it yields, when it ends. */
  function NextFrom(entries: seq<Entry>, seekable: bool, position: nat): (r: (nat, NextResult))
    requires position <= |entries| && (entries != [] || !seekable)
    ensures r.0 <= |entries|
  {
    var (next, result) := Turns(entries, seekable, position, 2);
    ReadingEndsUnlessEmpty(entries, seekable, position);
    (next, result.value)
  }

  /** What a read from a position yields, and where it leaves the file: a read at the end starts over in a file that can be
      rewound and fails for ever in any other; a mistyped value is passed over, text that is not JSON never is. */
  ghost predicate IsRead(entries: seq<Entry>, seekable: bool, position: nat, result: NextResult, next: nat) {
    var at := if position == |entries| && seekable then 0 else position;
    if at >= |entries| then result == CannotRewind && next == position
    else if entries[at].Corrupt? then result == DecodeError && next == at
    else
      && next == at + 1
      && result == if entries[at].Record? then Served(entries[at].spec) else DecodeError
  }

  /** The read after a mistyped value yields the record that follows it, in the file or round its end. */
  lemma MistypedIsPassedOver(entries: seq<Entry>, seekable: bool, position: nat)
    requires position < |entries| && entries[position].Mistyped?
    ensures var (next, result) := NextFrom(entries, seekable, position);
            && result == DecodeError
            && (position + 1 < |entries| && entries[position + 1].Record? ==>
                  NextFrom(entries, seekable, next).1 == Served(entries[position + 1].spec))
            && (position + 1 == |entries| && seekable && entries[0].Record? ==>
                  NextFrom(entries, seekable, next).1 == Served(entries[0].spec))
            && (position + 1 == |entries| && !seekable ==> NextFrom(entries, seekable, next).1 == CannotRewind)
  {
    ReadIs(entries, seekable, position);
    ReadIs(entries, seekable, position + 1);
  }

  lemma ReadIs(entries: seq<Entry>, seekable: bool, position: nat)
    requires position <= |entries| && (entries != [] || !seekable)
    ensures var (next, result) := NextFrom(entries, seekable, position); IsRead(entries, seekable, position, result, next)
  {
    TwoTurns(entries, seekable, position);
    ReadingEndsUnlessEmpty(entries, seekable, position);
  }

  lemma TwoTurns(entries: seq<Entry>, seekable: bool, position: nat)
    requires position <= |entries|
    ensures var (next, result) := Turn(entries, seekable, position);
            Turns(entries, seekable, position, 2) == if result.Some? then (next, result) else Turns(entries, seekable, next, 1)
  {
  }

  class StreamReader {
    const entries: seq<Entry>
    const seekable: bool
    var position: nat
    /** Every request handed out so far. */
    ghost var served: seq<RequestSpec>
    /** What every read has yielded so far, errors included. */
    ghost var results: seq<NextResult>

    ghost predicate Valid()
      reads this
    {
      && position <= |entries|
      && (entries != [] || !seekable)
    }

    /** A rewindable file of well-formed requests only. */
    ghost predicate Sound() {
      entries != [] && seekable && forall i :: 0 <= i < |entries| ==> entries[i].Record?
    }

    /** Over a sound file, the j-th request ever served is record j modulo the number of records. */
    ghost predicate Cyclic()
      reads this
    {
      && Sound()
      && (position - |served|) % |entries| == 0
      && forall j :: 0 <= j < |served| ==> served[j] == entries[j % |entries|].spec
    }

    constructor (entries: seq<Entry>, seekable: bool)
      requires entries != [] || !seekable
      ensures Valid() && this.entries == entries && this.seekable == seekable
      ensures served == [] && results == [] && (Sound() ==> Cyclic())
    {
      this.entries, this.seekable, position := entries, seekable, 0;
      served, results := [], [];
    }

    method Next() returns (result: NextResult)
      requires Valid()
      modifies this
      ensures Valid()
      ensures (position, result) == NextFrom(entries, seekable, old(position))
      ensures IsRead(entries, seekable, old(position), result, position)
      ensures results == old(results) + [result]
      ensures served == old(served) + (if result.Served? then [result.spec] else [])
      ensures old(Cyclic()) ==> Cyclic() && result.Served?
    {
      ghost var start := position;
      ghost var turns := 0;
      ReadingEndsUnlessEmpty(entries, seekable, position);
      while true
        invariant position <= |entries| && served == old(served) && results == old(results)
        invariant turns <= 1
        invariant turns == 0 ==> position == start
        invariant turns == 1 ==> start == |entries| && position == 0 && seekable
        invariant turns == 1 ==> entries != []
        decreases 1 - turns
      {
        if position == |entries| {
          if !seekable {
            results := results + [CannotRewind];
            return CannotRewind;
          }
          position := 0;
          turns := turns + 1;
          continue;
        }
        var entry := entries[position];
        if entry.Corrupt? {
          results := results + [DecodeError];
          return DecodeError;
        }
        position := position + 1;
        if entry.Mistyped? {
          results := results + [DecodeError];
          return DecodeError;
        }
        served, results := served + [entry.spec], results + [Served(entry.spec)];
        if old(Cyclic()) {
          NextInCycle(start, |old(served)|, |entries|);
        }
        return Served(entry.spec);
      }
    }
  }

  lemma NextInCycle(position: nat, count: nat, n: nat)
    requires n > 0 && position <= n && (position - count) % n == 0
    ensures var at := if position == n then 0 else position;
            count % n == at && (at + 1 - (count + 1)) % n == 0
  {
    var q := (position - count) / n;
    assert position - count == q * n;
    if position == n {
      assert count == (1 - q) * n + 0;
      QuotientIs(count, n, 1 - q, 0);
      assert 0 - count == (q - 1) * n;
      QuotientIs(0 - count, n, q - 1, 0);
    } else {
      assert count == (-q) * n + position;
      QuotientIs(count, n, -q, position);
    }
  }
}
