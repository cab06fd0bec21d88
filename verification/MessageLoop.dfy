// The shape shared by all generated parsers: read a tag, let the message
// consume what follows, repeat until the payload is used up.
module MessageLoop {
  import opened Wrappers
  import opened Varint
  import opened UnknownFields

  // What a message does with a tag and the bytes behind it: the updated
  // message and the remaining bytes, or a failure.
  type Step<!M> = (M, nat, seq<byte>) -> Option<(M, seq<byte>)>

  // Whether a string field accepts these bytes as UTF-8.
  type Utf8Check = seq<byte> -> bool

  function Run<M>(step: Step<M>, m: M, b: seq<byte>): Option<M>
    decreases |b|
  {
    if |b| == 0 then Some(m)
    else
      var t := ReadTag(b);
      if t.None? then None
      else
        var s := step(m, t.value.0, t.value.1);
        if s.None? || |s.value.1| > |t.value.1| then None else Run(step, s.value.0, s.value.1)
  }

  // A step that never un-reads bytes and looks only at those it consumes.
  ghost predicate SteadyAt<M>(step: Step<M>, m: M, t: nat, r: seq<byte>, y: seq<byte>) {
    step(m, t, r).Some? ==>
      && |step(m, t, r).value.1| <= |r|
      && step(m, t, r + y) == Some((step(m, t, r).value.0, step(m, t, r).value.1 + y))
  }

  ghost predicate Steady<M(!new)>(step: Step<M>) {
    forall m, t, r, y :: SteadyAt(step, m, t, r, y)
  }

  lemma RunEmpty<M>(step: Step<M>, m: M)
    ensures Run(step, m, []) == Some(m)
  {
  }

  lemma RunOne<M>(step: Step<M>, m: M, tag: nat, behind: seq<byte>)
    requires tag < TWO_32 && step(m, tag, behind).Some? && |step(m, tag, behind).value.1| <= |behind|
    ensures Run(step, m, Encode(tag) + behind) == Run(step, step(m, tag, behind).value.0, step(m, tag, behind).value.1)
  {
    ReadEncoded(tag, behind);
  }

  lemma RunNone<M>(step: Step<M>, m: M, tag: nat, behind: seq<byte>)
    requires tag < TWO_32 && step(m, tag, behind).None?
    ensures Run(step, m, Encode(tag) + behind).None?
  {
    ReadEncoded(tag, behind);
  }

  // Parsing a concatenation is parsing the second part into the message that
  // the first part gave.
  lemma {:induction false} RunAppend<M(!new)>(step: Step<M>, m: M, x: seq<byte>, y: seq<byte>)
    requires Steady(step) && Run(step, m, x).Some?
    ensures Run(step, m, x + y) == Run(step, Run(step, m, x).value, y)
    decreases |x|
  {
    if |x| == 0 {
      assert x + y == y;
    } else {
      ReadersLocal(x, y);
      var t := ReadTag(x).value;
      var s := step(m, t.0, t.1).value;
      assert SteadyAt(step, m, t.0, t.1, y);
      RunAppend(step, s.0, s.1, y);
    }
  }

  // Tags a message has no use for: zero and end-group tags end the message,
  // which no caller here accepts; anything else is kept as unknown.
  function Unusual(tag: nat, b: seq<byte>): (r: Option<(UnknownField, seq<byte>)>)
    ensures r.Some? ==> |r.value.1| <= |b|
  {
    if tag == 0 || tag % 8 == 4 then None else ParseField(tag, b)
  }

  lemma UnusualLocal(tag: nat, b: seq<byte>, y: seq<byte>)
    requires Unusual(tag, b).Some?
    ensures Unusual(tag, b + y) == Some((Unusual(tag, b).value.0, Unusual(tag, b).value.1 + y))
  {
    ParseFieldLocal(tag, b, y);
  }

  // A step that keeps every field whose tag the message does not know, by
  // putting it behind those it already has.
  ghost predicate KeepsAt<M>(step: Step<M>, known: nat -> bool, keep: (M, seq<UnknownField>) -> M, m: M, t: nat, b: seq<byte>) {
    !known(t) ==>
      var f := Unusual(t, b);
      step(m, t, b) == if f.None? then None else Some((keep(m, [f.value.0]), f.value.1))
  }

  ghost predicate Keeps<M(!new)>(step: Step<M>, known: nat -> bool, keep: (M, seq<UnknownField>) -> M) {
    && (forall m :: keep(m, []) == m)
    && (forall m, x, y :: keep(keep(m, x), y) == keep(m, x + y))
    && (forall m, t, b :: KeepsAt(step, known, keep, m, t, b))
  }

  // Storable fields the message does not know.
  ghost predicate ProperUnknown(known: nat -> bool, fs: seq<UnknownField>) {
    AllStorable(fs) && forall i | 0 <= i < |fs| :: !known(TagOf(fs[i]))
  }

  lemma UnknownStep<M(!new)>(step: Step<M>, known: nat -> bool, keep: (M, seq<UnknownField>) -> M,
                             m: M, f: UnknownField, rest: seq<byte>)
    requires Keeps(step, known, keep) && Storable(f) && !known(TagOf(f))
    ensures Run(step, m, Encode(TagOf(f)) + (Payload(f) + rest)) == Run(step, keep(m, [f]), rest)
  {
    hide Unusual, Payload, Encode, TagOf, Run;
    UnusualRoundTrip(f, rest);
    assert KeepsAt(step, known, keep, m, TagOf(f), Payload(f) + rest);
    RunOne(step, m, TagOf(f), Payload(f) + rest);
  }

  // Parsing unknown fields keeps them all, whatever follows.
  lemma {:induction false} UnknownPartMerges<M(!new)>(step: Step<M>, known: nat -> bool, keep: (M, seq<UnknownField>) -> M,
                                                      m: M, fs: seq<UnknownField>, rest: seq<byte>)
    requires Keeps(step, known, keep) && ProperUnknown(known, fs)
    ensures Run(step, m, SerializeAll(fs) + rest) == Run(step, keep(m, fs), rest)
    decreases |fs|
  {
    hide Run, Payload, Encode, TagOf, KeepsAt;
    if |fs| == 0 {
      assert SerializeAll(fs) + rest == rest;
    } else {
      var tail := SerializeAll(fs[1..]) + rest;
      assert SerializeAll(fs) + rest == Encode(TagOf(fs[0])) + (Payload(fs[0]) + tail);
      UnknownStep(step, known, keep, m, fs[0], tail);
      UnknownPartMerges(step, known, keep, keep(m, [fs[0]]), fs[1..], rest);
      assert [fs[0]] + fs[1..] == fs;
    }
  }

  // A message read without knowledge of its fields.
  function AnyStep(fs: seq<UnknownField>, tag: nat, b: seq<byte>): Option<(seq<UnknownField>, seq<byte>)> {
    var f := Unusual(tag, b);
    if f.None? then None else Some((fs + [f.value.0], f.value.1))
  }

  function ReadFields(b: seq<byte>): Option<seq<UnknownField>> {
    Run(AnyStep, [], b)
  }

  // It yields the fields that were written, in the order of writing.
  lemma FieldsAreRead(fs: seq<UnknownField>)
    requires AllStorable(fs)
    ensures ReadFields(SerializeAll(fs)) == Some(fs)
  {
    hide SerializeAll, Unusual;
    var step: Step<seq<UnknownField>> := AnyStep;
    var known := (t: nat) => false;
    var keep := (m: seq<UnknownField>, x: seq<UnknownField>) => m + x;
    assert Keeps(step, known, keep) by {
      forall m ensures keep(m, []) == m {
        assert m + [] == m;
      }
      forall m, x, y ensures keep(keep(m, x), y) == keep(m, x + y) {
        assert m + x + y == m + (x + y);
      }
      forall m, t, b ensures KeepsAt(step, known, keep, m, t, b) {
      }
    }
    UnknownPartMerges(step, known, keep, [], fs, []);
    RunEmpty(step, fs);
    assert SerializeAll(fs) + [] == SerializeAll(fs) && keep([], fs) == fs;
  }

  lemma UnusualRoundTrip(f: UnknownField, rest: seq<byte>)
    requires Storable(f)
    ensures Unusual(TagOf(f), Payload(f) + rest) == Some((f, rest))
    ensures TagOf(f) < TWO_32
  {
    TagRange(f);
    FieldRoundTrip(f, rest);
  }
}
