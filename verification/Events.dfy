/**
 The event broker's history: a ring buffer of the last events, against the log of all of
 them. Delivery to subscribers is not part of this model.
 */
module Events {
  import opened Modular

  class Broker<E(0)> {
    var histBuf: array<E>
    var histHead: nat
    var histMax: nat
    var histCount: nat
    // every event published since the broker was created
    ghost var log: seq<E>

    /** The slot of the `k`-th event holds it, for every event that is still retained. */
    ghost predicate Valid()
      reads this, histBuf
    {
      && histBuf.Length == histMax
      && (histMax > 0 ==>
            && histCount == |log| && histHead == |log| % histMax
            && forall k :: 0 <= k < |log| && |log| - histMax <= k ==>
                 0 <= k % histMax < histMax && histBuf[k % histMax] == log[k])
    }

    constructor (historySize: int)
      ensures Valid() && log == [] && fresh(histBuf)
      ensures histMax == if historySize < 0 then 0 else historySize
    {
      histMax := if historySize < 0 then 0 else historySize;
      histBuf := new E[if historySize < 0 then 0 else historySize];
      histHead, histCount := 0, 0;
      log := [];
    }

    method Publish(event: E)
      requires Valid()
      modifies this, histBuf
      ensures Valid() && log == old(log) + [event]
      ensures histBuf == old(histBuf) && histMax == old(histMax)
    {
      if histMax > 0 {
        ResidueSteps(|log|, histMax);
        forall k | 0 <= k < |log| && |log| - histMax < k
          ensures k % histMax != histHead
        {
          ResiduesDiffer(k, |log|, histMax);
        }
        histBuf[histHead] := event;
        histHead := (histHead + 1) % histMax;
        histCount := histCount + 1;
      }
      log := log + [event];
    }

    /** How many events a request for `limit` returns: all that are retained unless fewer are
        asked for. */
    ghost function Served(limit: int): nat
      reads this
    {
      var filled := if |log| > histMax then histMax else |log|;
      if limit <= 0 || limit > filled then filled else limit
    }

    /** Walking back from the write position reaches the newest events first. */
    lemma NewestFirst(i: nat)
      requires Valid() && i < histMax && i < |log|
      ensures 0 <= (histHead - 1 - i + histMax) % histMax < histMax
      ensures histBuf[(histHead - 1 - i + histMax) % histMax] == log[|log| - 1 - i]
    {
      ResidueBack(|log|, i, histMax);
    }

    /** The last events of the whole log, in the order of publication. */
    method History(limit: int) returns (out: seq<E>)
      requires Valid()
      ensures Served(limit) <= |log|
      ensures out == log[|log| - Served(limit)..]
    {
      if histMax == 0 { return []; }
      var total := histCount;
      if total == 0 { return []; }
      var filled := total;
      if filled > histMax {
        filled := histMax;
      }
      var n := limit;
      if n <= 0 || n > filled {
        n := filled;
      }
      var buf := new E[n];
      for i := 0 to n
        invariant fresh(buf) && buf.Length == n
        invariant forall k :: n - i <= k < n ==> buf[k] == log[|log| - n + k]
      {
        NewestFirst(i);
        var idx := (histHead - 1 - i + histMax) % histMax;
        buf[n - 1 - i] := histBuf[idx];
      }
      out := buf[..];
    }
  }
}
