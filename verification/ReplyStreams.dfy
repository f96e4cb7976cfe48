/** The replies to one request, as flags: true for a partial, false for a terminal one. */
module ReplyStreams {
  predicate AllPartial(flags: seq<bool>) {
    forall i :: 0 <= i < |flags| ==> flags[i]
  }

  /** Some partials, then at most one terminal reply, then nothing. */
  predicate Orderly(flags: seq<bool>) {
    flags == [] || AllPartial(flags[..|flags| - 1])
  }

  predicate Over(flags: seq<bool>) {
    flags != [] && !flags[|flags| - 1]
  }

  lemma {:induction false} LastFlag(flags: seq<bool>, partial: bool)
    requires AllPartial(flags)
    ensures Orderly(flags + [partial]) && (partial ==> AllPartial(flags + [partial])) && Over(flags + [partial]) == !partial
  {
    assert (flags + [partial])[..|flags|] == flags;
  }

  lemma {:induction false} NotOver(flags: seq<bool>)
    requires Orderly(flags) && !Over(flags)
    ensures AllPartial(flags)
  {
    if flags != [] {
      assert AllPartial(flags[..|flags| - 1]);
      forall i | 0 <= i < |flags| ensures flags[i] {
        if i < |flags| - 1 {
          assert flags[..|flags| - 1][i];
        }
      }
    }
  }

  /** What has gone wrong stays wrong, and anything after a terminal reply is wrong. */
  lemma {:induction false} OneTooMany(flags: seq<bool>, partial: bool)
    requires Over(flags) || !Orderly(flags)
    ensures !Orderly(flags + [partial])
  {
    var more := flags + [partial];
    assert more[..|more| - 1] == flags;
  }
}
