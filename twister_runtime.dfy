/** The remote MapReduce runtime as the matrix driver sees it: the
    TwisterDriver calls it makes (`configureMaps`, `addToMemCache`,
    `runMapReduceBCast`, `cleanMemCache`, `getCurrentCombiner`, `close`),
    the monitor a broadcast returns (`monitorTillCompletion`), and the
    combiner whose results the driver reads. Its network and worker side
    is not modelled; instead a runtime is given a script fixing what it
    answers, and it records every call it receives in a ghost trace, so
    that the order and number of calls can be stated. */
module Twister {
  import opened Jvm

  /** A call the driver makes on the runtime. `C` is the job configuration
      and `V` the type of the values shipped to and from the workers. */
  datatype Call<C, V> =
    | Opened(conf: C)                    // new TwisterDriver(jobConf)
    | MapsConfigured(values: seq<V>)     // configureMaps
    | Cached(value: V)                   // addToMemCache
    | Broadcast(key: nat)                // runMapReduceBCast
    | Monitored                          // monitorTillCompletion
    | CacheCleaned(key: nat)             // cleanMemCache
    | CombinerRead                       // getCurrentCombiner
    | Closed                             // close

  class Runtime<C, V> {
    /** The script. The call with this position in the trace (counting
        from 0) throws TwisterException; a position no call reaches means
        that no call throws. */
    const failAt: int
    /** The combiner's results after round `r`, in the iteration order of
        its result map. */
    const results: seq<seq<V>>
    /** The status the monitor reports for round `r`. */
    const statuses: seq<bool>

    /** Every call received so far, in order. */
    ghost var trace: seq<Call<C, V>>
    /** How many calls were received: the length of the trace. */
    var calls: nat
    /** Memory-cache keys handed out so far. */
    var issued: nat
    /** Broadcast rounds run so far. */
    var rounds: nat
    /** The combiner's current results. */
    var current: seq<V>

    ghost predicate Valid()
      reads this
    {
      calls == |trace|
    }

    ghost predicate Idle()
      reads this
    {
      trace == [] && calls == 0 && issued == 0 && rounds == 0 && current == []
    }

    constructor (failAt: int, results: seq<seq<V>>, statuses: seq<bool>)
      ensures Valid() && Idle()
      ensures this.failAt == failAt && this.results == results && this.statuses == statuses
    {
      this.failAt := failAt;
      this.results := results;
      this.statuses := statuses;
      trace := [];
      calls := 0;
      issued, rounds, current := 0, 0, [];
    }

    /** The results the combiner holds after round `r`; none beyond the script. */
    function ResultsOf(r: nat): seq<V> {
      if r < |results| then results[r] else []
    }

    function StatusOf(r: nat): bool {
      r < |statuses| && statuses[r]
    }

    /** Whether the next call throws. */
    function Throwing(): (o: Outcome)
      reads this
      ensures o.Raised? <==> calls == failAt
      ensures o.Raised? ==> o.error == TwisterException
    {
      if calls == failAt then Raised(TwisterException) else Done
    }

    method Open(conf: C) returns (o: Outcome)
      requires Valid()
      modifies this
      ensures Valid()
      ensures o == old(Throwing()) && trace == old(trace) + [Opened(conf)]
      ensures issued == old(issued) && rounds == old(rounds) && current == old(current)
    {
      o := Throwing();
      trace := trace + [Opened(conf)];
      calls := calls + 1;
    }

    method ConfigureMaps(values: seq<V>) returns (o: Outcome)
      requires Valid()
      modifies this
      ensures Valid()
      ensures o == old(Throwing()) && trace == old(trace) + [MapsConfigured(values)]
      ensures issued == old(issued) && rounds == old(rounds) && current == old(current)
    {
      o := Throwing();
      trace := trace + [MapsConfigured(values)];
      calls := calls + 1;
    }

    /** Caches a value at the workers and hands back the key it is cached under. */
    method AddToMemCache(value: V) returns (o: Outcome, key: nat)
      requires Valid()
      modifies this
      ensures Valid()
      ensures o == old(Throwing()) && trace == old(trace) + [Cached(value)]
      ensures o == Done ==> key == old(issued) && issued == old(issued) + 1
      ensures o.Raised? ==> issued == old(issued)
      ensures rounds == old(rounds) && current == old(current)
    {
      o := Throwing();
      trace := trace + [Cached(value)];
      calls := calls + 1;
      key := issued;
      if o == Done {
        issued := issued + 1;
      }
    }

    /** Runs one broadcast round over the cached value under `key`; the
        combiner then holds that round's results. */
    method RunMapReduceBCast(key: nat) returns (o: Outcome)
      requires Valid()
      modifies this
      ensures Valid()
      ensures o == old(Throwing()) && trace == old(trace) + [Broadcast(key)]
      ensures o == Done ==> rounds == old(rounds) + 1 && current == ResultsOf(old(rounds))
      ensures o.Raised? ==> rounds == old(rounds) && current == old(current)
      ensures issued == old(issued)
    {
      o := Throwing();
      trace := trace + [Broadcast(key)];
      calls := calls + 1;
      if o == Done {
        current := ResultsOf(rounds);
        rounds := rounds + 1;
      }
    }

    /** Waits for the last round and reports whether it succeeded. */
    method MonitorTillCompletion() returns (o: Outcome, status: bool)
      requires Valid()
      requires rounds > 0
      modifies this
      ensures Valid()
      ensures o == old(Throwing()) && trace == old(trace) + [Monitored]
      ensures status == StatusOf(old(rounds) - 1)
      ensures issued == old(issued) && rounds == old(rounds) && current == old(current)
    {
      o := Throwing();
      trace := trace + [Monitored];
      calls := calls + 1;
      status := StatusOf(rounds - 1);
    }

    method CleanMemCache(key: nat) returns (o: Outcome)
      requires Valid()
      modifies this
      ensures Valid()
      ensures o == old(Throwing()) && trace == old(trace) + [CacheCleaned(key)]
      ensures issued == old(issued) && rounds == old(rounds) && current == old(current)
    {
      o := Throwing();
      trace := trace + [CacheCleaned(key)];
      calls := calls + 1;
    }

    /** The combiner's current results. */
    method GetCurrentCombiner() returns (o: Outcome, res: seq<V>)
      requires Valid()
      modifies this
      ensures Valid()
      ensures o == old(Throwing()) && trace == old(trace) + [CombinerRead]
      ensures res == current
      ensures issued == old(issued) && rounds == old(rounds) && current == old(current)
    {
      o := Throwing();
      trace := trace + [CombinerRead];
      calls := calls + 1;
      res := current;
    }

    /** Releases the runtime. It does not throw. */
    method Close()
      requires Valid()
      modifies this
      ensures Valid()
      ensures trace == old(trace) + [Closed]
      ensures issued == old(issued) && rounds == old(rounds) && current == old(current)
    {
      trace := trace + [Closed];
      calls := calls + 1;
    }
  }
}
