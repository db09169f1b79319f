/**
 * The cleaning pipeline of `Text.apply`: cleaners are arbitrary Python
 * callables, so each maps a value to a value, and a cleaner may receive
 * whatever its predecessor returned.
 */
module Cleaning {
  import opened Values

  type Cleaner = Value -> Value

  /** A cleaner as `apply` documents it: from a string it produces a string. */
  ghost predicate StringToString(c: Cleaner) {
    forall v: Value :: v.Str? ==> c(v).Str?
  }

  /**
   * The value after running `cleaners` one after another, the first one
   * first. Cleaners that keep strings as strings yield a string.
   */
  function Pipeline(cleaners: seq<Cleaner>, start: Value): (r: Value)
    ensures start.Str? && (forall i :: 0 <= i < |cleaners| ==> StringToString(cleaners[i])) ==> r.Str?
  {
    if cleaners == [] then start
    else
      var last := |cleaners| - 1;
      cleaners[last](Pipeline(cleaners[..last], start))
  }

  /** Running `a` and then `b` is running their concatenation. */
  lemma {:induction false} PipelineConcat(a: seq<Cleaner>, b: seq<Cleaner>, start: Value)
    ensures Pipeline(a + b, start) == Pipeline(b, Pipeline(a, start))
    decreases |b|
  {
    if b == [] {
      assert a + b == a;
    } else {
      var last := |b| - 1;
      assert (a + b)[..|a + b| - 1] == a + b[..last];
      PipelineConcat(a, b[..last], start);
    }
  }

  /** Strict left-to-right order: the first cleaner sees the starting value. */
  lemma FirstCleanerFirst(c: Cleaner, rest: seq<Cleaner>, start: Value)
    ensures Pipeline([c] + rest, start) == Pipeline(rest, c(start))
  {
    PipelineConcat([c], rest, start);
    assert [c][..0] == [];
  }

  /** Appends "!" to a string and leaves any other value alone. */
  function AppendExclaim(v: Value): Value {
    if v.Str? then Str(v.s + "!") else v
  }

  /** Keeps only the first character of a string. */
  function FirstChar(v: Value): Value {
    if v.Str? && |v.s| > 0 then Str(v.s[..1]) else v
  }

  /** Order matters: the same two cleaners in swapped order give different texts. */
  lemma OrderSensitive()
    ensures Pipeline([FirstChar, AppendExclaim], Str("hi")) == Str("h!")
    ensures Pipeline([AppendExclaim, FirstChar], Str("hi")) == Str("h")
  {
    var hi := Str("hi");
    assert "hi"[..1] == "h";
    FirstCleanerFirst(FirstChar, [AppendExclaim], hi);
    FirstCleanerFirst(AppendExclaim, [], FirstChar(hi));
    FirstCleanerFirst(AppendExclaim, [FirstChar], hi);
    FirstCleanerFirst(FirstChar, [], AppendExclaim(hi));
    assert [FirstChar] + [AppendExclaim] == [FirstChar, AppendExclaim];
    assert [AppendExclaim] + [FirstChar] == [AppendExclaim, FirstChar];
    assert ("hi" + "!")[..1] == "h";
  }
}
