/**
 A vote item: a voting code and a display name fixed at construction, a
 one-byte value, and a `hasVoted` latch that setting the value closes and
 nothing opens again. The voting-code enumeration is not part of this model,
 so the code's type is a parameter.
 */
module VoteItems {

  /** A Java `byte`. */
  type Int8 = x: int | -128 <= x <= 127

  datatype VoteItem<Code> = VoteItem(code: Code, name: string, value: Int8, hasVoted: bool)

  /** `VoteItem(code, name, value)`. */
  function NewVoteItem<Code>(code: Code, name: string, value: Int8): (v: VoteItem<Code>)
    ensures v.code == code && v.name == name
    ensures GetValue(v) == value
    ensures !HasVoted(v)
  {
    VoteItem(code, name, value, false)
  }

  /** `VoteItem(code, name)`: the three-argument constructor with value zero. */
  function NewVoteItemUnset<Code>(code: Code, name: string): (v: VoteItem<Code>)
    ensures v == NewVoteItem(code, name, 0)
    ensures GetValue(v) == 0 && !HasVoted(v)
  {
    VoteItem(code, name, 0, false)
  }

  /** `getValue()`. */
  function GetValue<Code>(v: VoteItem<Code>): (value: Int8)
    ensures value == v.value
  {
    v.value
  }

  /** `hasVoted()`. */
  function HasVoted<Code>(v: VoteItem<Code>): (voted: bool)
    ensures voted == v.hasVoted
  {
    v.hasVoted
  }

  /** `setValue(value)`: record a vote. */
  function SetValue<Code>(v: VoteItem<Code>, value: Int8): (v': VoteItem<Code>)
    ensures GetValue(v') == value
    ensures HasVoted(v')
    ensures v'.code == v.code && v'.name == v.name
  {
    v.(value := value, hasVoted := true)
  }

  /** Setting the same value twice is the same as setting it once. */
  lemma SetValueIdempotent<Code>(v: VoteItem<Code>, value: Int8)
    ensures SetValue(SetValue(v, value), value) == SetValue(v, value)
  {
  }

  /** The operations a caller can apply to an item after construction. */
  datatype VoteOp = Set(value: Int8) | ReadValue | ReadHasVoted

  function Apply<Code>(v: VoteItem<Code>, op: VoteOp): VoteItem<Code> {
    match op
    case Set(x) => SetValue(v, x)
    case ReadValue => v
    case ReadHasVoted => v
  }

  function ApplyAll<Code>(v: VoteItem<Code>, ops: seq<VoteOp>): VoteItem<Code>
    decreases |ops|
  {
    if |ops| == 0 then v else ApplyAll(Apply(v, ops[0]), ops[1..])
  }

  /** The value most recently set by `ops`, or `initial` when none sets one. */
  function LastSet(initial: Int8, ops: seq<VoteOp>): Int8
    decreases |ops|
  {
    if |ops| == 0 then initial
    else if ops[|ops| - 1].Set? then ops[|ops| - 1].value
    else LastSet(initial, ops[..|ops| - 1])
  }

  /** Over any sequence of operations: code and name are unchanged, the value
      is the last one set, and the latch is closed exactly when it was closed
      before or some operation set a value. */
  lemma {:induction false} ApplyAllEffect<Code>(v: VoteItem<Code>, ops: seq<VoteOp>)
    ensures var w := ApplyAll(v, ops);
            && w.code == v.code && w.name == v.name
            && GetValue(w) == LastSet(GetValue(v), ops)
            && (HasVoted(w) <==> HasVoted(v) || exists i :: 0 <= i < |ops| && ops[i].Set?)
    decreases |ops|
  {
    if |ops| > 0 {
      var v' := Apply(v, ops[0]);
      ApplyAllEffect(v', ops[1..]);
      assert ops == [ops[0]] + ops[1..];
      LastSetCons(GetValue(v), ops[0], ops[1..]);
      if ops[0].Set? {
        assert GetValue(v') == ops[0].value;
      }
      if exists i :: 0 <= i < |ops[1..]| && ops[1..][i].Set? {
        var k :| 0 <= k < |ops[1..]| && ops[1..][k].Set?;
        assert ops[k + 1].Set?;
      }
      if exists i :: 0 <= i < |ops| && ops[i].Set? {
        var k :| 0 <= k < |ops| && ops[k].Set?;
        if k > 0 {
          assert ops[1..][k - 1].Set?;
        }
      }
    }
  }

  /** Peeling the first operation off: a set replaces the starting value. */
  lemma {:induction false} LastSetCons(initial: Int8, op: VoteOp, rest: seq<VoteOp>)
    ensures LastSet(initial, [op] + rest) == LastSet(if op.Set? then op.value else initial, rest)
    decreases |rest|
  {
    var ops := [op] + rest;
    if |rest| == 0 {
    } else {
      assert ops[..|ops| - 1] == [op] + rest[..|rest| - 1];
      if !rest[|rest| - 1].Set? {
        LastSetCons(initial, op, rest[..|rest| - 1]);
      }
    }
  }

  /** The latch: once an item has been voted on, no sequence of operations
      makes `hasVoted` false again. */
  lemma HasVotedLatches<Code>(v: VoteItem<Code>, ops: seq<VoteOp>)
    requires HasVoted(v)
    ensures HasVoted(ApplyAll(v, ops))
  {
    ApplyAllEffect(v, ops);
  }
}
