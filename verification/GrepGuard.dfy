/**
 The structural guard for grep patterns (sys/log/grepguard.go): one pass that counts unbounded
 quantifiers and one pass that keeps a stack of open groups, both over the raw pattern text.

 The text-level functions below follow the code step by step; `IsPathologicalGrepPattern` is the
 code's own pair of loops and is proved equal to them. What the guard is meant to decide is a property of
 the regular expression's tree, defined in GrepGuardProofs.
 */
module GrepGuard {
  import opened Text

  /** The reason strings the code returns; `Accepted` is the empty string. */
  datatype Verdict =
    | Accepted
    | TooManyQuantifiers
    | NestedQuantifier
    | AlternationUnderQuantifier
    | BoundedRepetition

  const MAX_UNBOUNDED := 5

  /** Whether a `{...}` token at the start of `p` is of the form `{n,}`. */
  predicate QuantifierUnbounded(p: string) {
    |p| > 0 && p[0] == '{' && IndexByte(p, '}') > 0 && BodyUnbounded(p[1..IndexByte(p, '}')])
  }

  /** Nothing follows the first comma of the token's body. */
  predicate BodyUnbounded(body: string) {
    var k := IndexByte(body, ',');
    k >= 0 && body[k + 1..] == []
  }

  /** The bounds of a `{n}` or `{n,m}` token at the start of `p`. */
  function BoundedRepeatBounds(p: string): Option<(int, int)> {
    if |p| == 0 || p[0] != '{' || IndexByte(p, '}') <= 0 then None else BodyBounds(p[1..IndexByte(p, '}')])
  }

  function BodyBounds(body: string): Option<(int, int)> {
    if |body| > 0 && body[|body| - 1] == ',' then None else
    var k := IndexByte(body, ',');
    if k < 0 then
      match Atoi(TrimSpace(body))
      case None => None
      case Some(n) => Some((n, n))
    else
      match Atoi(TrimSpace(body[..k]))
      case None => None
      case Some(n) =>
        match Atoi(TrimSpace(body[k + 1..]))
        case None => None
        case Some(m) => Some((n, m))
  }

  /** The text starts with an escape pair, which both passes step over. */
  predicate StartsEscape(p: string) {
    |p| > 1 && p[0] == '\\'
  }

  /** How many unbounded quantifiers the first pass counts from here on. */
  function CountUnbounded(p: string): nat {
    if p == [] then 0
    else if StartsEscape(p) then CountUnbounded(p[2..])
    else
      (if p[0] == '*' || p[0] == '+' || QuantifierUnbounded(p) then 1 else 0) + CountUnbounded(p[1..])
  }

  /** What the second pass knows about an open group. */
  datatype GroupState = GroupState(hasAlt: bool, hasInnerQuant: bool)

  /** Raises the given flags on the innermost open group, if there is one. */
  function Mark(stack: seq<GroupState>, alt: bool, quant: bool): (r: seq<GroupState>)
    ensures |r| == |stack|
  {
    if stack == [] then stack
    else
      var top := stack[|stack| - 1];
      stack[|stack| - 1 := GroupState(top.hasAlt || alt, top.hasInnerQuant || quant)]
  }

  /** What closing group `top` in front of `rest` reports. */
  function CloseVerdict(top: GroupState, rest: string): Verdict {
    if rest == [] then Accepted
    else if rest[0] == '*' || rest[0] == '+' || QuantifierUnbounded(rest) then
      if top.hasInnerQuant then NestedQuantifier
      else if top.hasAlt then AlternationUnderQuantifier
      else Accepted
    else if rest[0] == '{' && top.hasInnerQuant then
      match BoundedRepeatBounds(rest)
      case None => Accepted
      case Some(bounds) => if bounds.1 >= 2 then BoundedRepetition else Accepted
    else Accepted
  }

  /** What the second pass reports from here on, with `stack` the groups still open. */
  function Walk(p: string, stack: seq<GroupState>): Verdict {
    if p == [] then Accepted
    else if StartsEscape(p) then Walk(p[2..], stack)
    else if p[0] == '(' then Walk(p[1..], stack + [GroupState(false, false)])
    else if p[0] == ')' && stack != [] then
      var top := stack[|stack| - 1];
      var v := CloseVerdict(top, p[1..]);
      if v != Accepted then v
      else Walk(p[1..], Mark(stack[..|stack| - 1], top.hasAlt, top.hasInnerQuant))
    else if p[0] == '|' then Walk(p[1..], Mark(stack, true, false))
    else if p[0] == '*' || p[0] == '+' then Walk(p[1..], Mark(stack, false, true))
    else if QuantifierUnbounded(p) then Walk(p[IndexByte(p, '}') + 1..], Mark(stack, false, true))
    else Walk(p[1..], stack)
  }

  function Scan(p: string): Verdict {
    if CountUnbounded(p) > MAX_UNBOUNDED then TooManyQuantifiers else Walk(p, [])
  }

  /** The code's two loops. Every stack access is in range because the depth counter is the stack's length. */
  method IsPathologicalGrepPattern(p: string) returns (verdict: Verdict)
    ensures verdict == Scan(p)
  {
    hide Walk, CountUnbounded;
    var unbounded := CountLoop(p);
    if unbounded > MAX_UNBOUNDED {
      return TooManyQuantifiers;
    }
    var depth := 0;
    var stack: seq<GroupState> := [];
    var i := 0;
    assert p[0..] == p;
    while i < |p|
      invariant 0 <= i <= |p|
      invariant depth == |stack|
      invariant Walk(p[i..], stack) == Walk(p, [])
    {
      var skip;
      verdict, skip, depth, stack := WalkStep(p[i..], depth, stack);
      if verdict != Accepted {
        return;
      }
      assert p[i..][skip..] == p[i + skip..];
      i := i + skip;
    }
    assert p[i..] == [];
    WalkEnds(stack);
    return Accepted;
  }

  lemma WalkEnds(stack: seq<GroupState>)
    ensures Walk([], stack) == Accepted
  {
  }

  /** One round of the second loop, at the start of `p`: `skip` is how far the index moves. */
  method WalkStep(p: string, depth: nat, stack: seq<GroupState>)
    returns (verdict: Verdict, skip: nat, newDepth: nat, newStack: seq<GroupState>)
    requires p != [] && depth == |stack|
    ensures newDepth == |newStack|
    ensures 1 <= skip <= |p|
    ensures Walk(p, stack) == if verdict == Accepted then Walk(p[skip..], newStack) else verdict
  {
    verdict, skip, newDepth, newStack := Accepted, 1, depth, stack;
    var c := p[0];
    if c == '\\' && |p| > 1 {
      skip := 2;
    } else if c == '(' {
      newStack := stack + [GroupState(false, false)];
      newDepth := depth + 1;
    } else if c == ')' {
      if depth > 0 {
        verdict, newStack := CloseGroup(stack, p[1..]);
        newDepth := depth - 1;
      }
    } else if c == '|' {
      newStack := Mark(stack, true, false);
    } else if c == '*' || c == '+' {
      newStack := Mark(stack, false, true);
    } else if c == '{' {
      var j := IndexByte(p, '}');
      if j > 0 && QuantifierUnbounded(p) {
        newStack := Mark(stack, false, true);
        skip := j + 1;
      }
    }
  }

  /** The `)` case: pops the group, hands its flags to the parent, and looks at what follows. */
  method CloseGroup(stack: seq<GroupState>, rest: string) returns (verdict: Verdict, popped: seq<GroupState>)
    requires stack != []
    ensures verdict == CloseVerdict(stack[|stack| - 1], rest)
    ensures popped == Mark(stack[..|stack| - 1], stack[|stack| - 1].hasAlt, stack[|stack| - 1].hasInnerQuant)
  {
    var top := stack[|stack| - 1];
    popped := stack[..|stack| - 1];
    if |popped| > 0 {
      if top.hasInnerQuant {
        popped := popped[|popped| - 1 := popped[|popped| - 1].(hasInnerQuant := true)];
      }
      if top.hasAlt {
        popped := popped[|popped| - 1 := popped[|popped| - 1].(hasAlt := true)];
      }
    }
    verdict := Accepted;
    if |rest| > 0 {
      var next := rest[0];
      if next == '*' || next == '+' || (next == '{' && QuantifierUnbounded(rest)) {
        if top.hasInnerQuant {
          return NestedQuantifier, popped;
        }
        if top.hasAlt {
          return AlternationUnderQuantifier, popped;
        }
      }
      if next == '{' && top.hasInnerQuant {
        var bounds := BoundedRepeatBounds(rest);
        if bounds.Some? && bounds.value.1 >= 2 {
          return BoundedRepetition, popped;
        }
      }
    }
  }

  method CountLoop(p: string) returns (unbounded: nat)
    ensures unbounded == CountUnbounded(p)
  {
    unbounded := 0;
    var i := 0;
    while i < |p|
      invariant 0 <= i <= |p|
      invariant unbounded + CountUnbounded(p[i..]) == CountUnbounded(p)
    {
      assert p[i..][1..] == p[i + 1..];
      if p[i] == '\\' && i + 1 < |p| {
        assert p[i..][2..] == p[i + 2..];
        i := i + 2;
        continue;
      }
      if p[i] == '*' || p[i] == '+' {
        unbounded := unbounded + 1;
      } else if p[i] == '{' {
        if QuantifierUnbounded(p[i..]) {
          unbounded := unbounded + 1;
        }
      }
      i := i + 1;
    }
  }
}
