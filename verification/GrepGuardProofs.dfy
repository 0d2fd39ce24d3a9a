/**
 What the grep-pattern guard decides, stated on the tree of a regular expression, and the proof
 that the one-pass text scanner decides exactly that on the printed pattern.

 Trees have literals, escapes, groups, alternation, concatenation and the quantifiers `?`, `*`, `+`,
 `{n}`, `{n,}` and `{n,m}`; a quantifier may itself be quantified, which covers lazy and possessive forms, and
 a group may open with a `?` prefix, as in `(?:...)`, `(?=...)` or `(?P<name>...)`.
 */
module GrepGuardProofs {
  import opened Text
  import opened GrepGuard

  datatype Quantifier = Optional | Star | Plus | Exactly(n: nat) | AtLeast(n: nat) | Between(n: nat, m: nat)

  datatype Regex =
    | Empty
    | Literal(c: char)
    | Escape(c: char)
    | Group(prefix: string, body: Regex)
    | Seq(left: Regex, right: Regex)
    | Alt(left: Regex, right: Regex)
    | Repeat(operand: Regex, q: Quantifier)

  /** The characters that mean something to a regular expression outside a class. */
  const META: set<char> := {'\\', '(', ')', '|', '*', '+', '?', '{', '['}

  /** What may stand between a group's parenthesis and its body: nothing, or `?` and plain characters. */
  predicate IsPrefix(s: string) {
    s == [] || (s[0] == '?' && forall i :: 1 <= i < |s| ==> s[i] !in META)
  }

  /** A tree whose shape is the one its printed form has: precedence is respected and literals are literal. */
  predicate WellFormed(r: Regex) {
    match r
    case Empty => true
    case Literal(c) => c !in META
    case Escape(_) => true
    case Group(prefix, body) => IsPrefix(prefix) && WellFormed(body)
    case Seq(a, b) => WellFormed(a) && WellFormed(b) && !a.Alt? && !b.Alt?
    case Alt(a, b) => WellFormed(a) && WellFormed(b)
    case Repeat(x, _) => WellFormed(x) && (x.Literal? || x.Escape? || x.Group? || x.Repeat?)
  }

  function PrintQuantifier(q: Quantifier): string {
    match q
    case Optional => "?"
    case Star => "*"
    case Plus => "+"
    case Exactly(n) => ['{'] + Decimal(n) + ['}']
    case AtLeast(n) => ['{'] + (Decimal(n) + [',']) + ['}']
    case Between(n, m) => ['{'] + (Decimal(n) + [','] + Decimal(m)) + ['}']
  }

  function Print(r: Regex): string {
    match r
    case Empty => []
    case Literal(c) => [c]
    case Escape(c) => ['\\', c]
    case Group(prefix, body) => ['('] + (prefix + Print(body)) + [')']
    case Seq(a, b) => Print(a) + Print(b)
    case Alt(a, b) => Print(a) + ['|'] + Print(b)
    case Repeat(x, q) => Print(x) + PrintQuantifier(q)
  }

  // ----- the rule on trees -----

  predicate Unbounded(q: Quantifier) {
    q.Star? || q.Plus? || q.AtLeast?
  }

  /** A bounded repeat that may go round twice. A bound that does not fit a Go int is not read as a repeat. */
  predicate RepeatsTwice(q: Quantifier) {
    (q.Exactly? && 2 <= q.n <= MAX_INT) || (q.Between? && q.n <= MAX_INT && 2 <= q.m <= MAX_INT)
  }

  function UnboundedQuantifiers(r: Regex): nat {
    match r
    case Empty => 0
    case Literal(_) => 0
    case Escape(_) => 0
    case Group(_, body) => UnboundedQuantifiers(body)
    case Seq(a, b) => UnboundedQuantifiers(a) + UnboundedQuantifiers(b)
    case Alt(a, b) => UnboundedQuantifiers(a) + UnboundedQuantifiers(b)
    case Repeat(x, q) => UnboundedQuantifiers(x) + if Unbounded(q) then 1 else 0
  }

  function Subterms(r: Regex): set<Regex> {
    {r} +
    match r
    case Empty => {}
    case Literal(_) => {}
    case Escape(_) => {}
    case Group(_, body) => Subterms(body)
    case Seq(a, b) => Subterms(a) + Subterms(b)
    case Alt(a, b) => Subterms(a) + Subterms(b)
    case Repeat(x, _) => Subterms(x)
  }

  predicate ContainsUnbounded(r: Regex) {
    exists t :: t in Subterms(r) && t.Repeat? && Unbounded(t.q)
  }

  predicate ContainsAlternation(r: Regex) {
    exists t :: t in Subterms(r) && t.Alt?
  }

  /** A quantified group of one of the shapes the guard exists to refuse. */
  predicate Backtracks(t: Regex) {
    t.Repeat? && t.operand.Group? &&
    var body := t.operand.body;
    || (Unbounded(t.q) && (ContainsUnbounded(body) || ContainsAlternation(body)))
    || (RepeatsTwice(t.q) && ContainsUnbounded(body))
  }

  /** The guard's rule: too many unbounded quantifiers, or a quantified group of a bad shape anywhere. */
  predicate Pathological(r: Regex) {
    UnboundedQuantifiers(r) > MAX_UNBOUNDED || exists t :: t in Subterms(r) && Backtracks(t)
  }

  // ----- the same rule, computed in reading order -----

  predicate HasAlt(r: Regex) {
    match r
    case Empty => false
    case Literal(_) => false
    case Escape(_) => false
    case Group(_, body) => HasAlt(body)
    case Seq(a, b) => HasAlt(a) || HasAlt(b)
    case Alt(_, _) => true
    case Repeat(x, _) => HasAlt(x)
  }

  function QuantifiedGroup(body: Regex, q: Quantifier): Verdict {
    if Unbounded(q) && UnboundedQuantifiers(body) > 0 then NestedQuantifier
    else if Unbounded(q) && HasAlt(body) then AlternationUnderQuantifier
    else if RepeatsTwice(q) && UnboundedQuantifiers(body) > 0 then BoundedRepetition
    else Accepted
  }

  /** The first bad quantified group, inner before outer and left before right. */
  function FirstViolation(r: Regex): Verdict {
    match r
    case Empty => Accepted
    case Literal(_) => Accepted
    case Escape(_) => Accepted
    case Group(_, body) => FirstViolation(body)
    case Seq(a, b) => if FirstViolation(a) != Accepted then FirstViolation(a) else FirstViolation(b)
    case Alt(a, b) => if FirstViolation(a) != Accepted then FirstViolation(a) else FirstViolation(b)
    case Repeat(x, q) =>
      if FirstViolation(x) != Accepted then FirstViolation(x)
      else if x.Group? then QuantifiedGroup(x.body, q)
      else Accepted
  }

  lemma {:induction false} ContainsMeansCounts(r: Regex)
    ensures ContainsUnbounded(r) <==> UnboundedQuantifiers(r) > 0
    ensures ContainsAlternation(r) <==> HasAlt(r)
  {
    assert r in Subterms(r);
    match r
    case Empty =>
    case Literal(_) =>
    case Escape(_) =>
    case Group(_, body) => ContainsMeansCounts(body);
    case Seq(a, b) => ContainsMeansCounts(a); ContainsMeansCounts(b);
    case Alt(a, b) => ContainsMeansCounts(a); ContainsMeansCounts(b);
    case Repeat(x, _) => ContainsMeansCounts(x);
  }

  lemma {:induction false} FirstViolationFindsAny(r: Regex)
    ensures FirstViolation(r) != Accepted <==> exists t :: t in Subterms(r) && Backtracks(t)
  {
    hide Backtracks, QuantifiedGroup;
    match r
    case Empty => NeverBacktracks(r);
    case Literal(_) => NeverBacktracks(r);
    case Escape(_) => NeverBacktracks(r);
    case Group(_, body) => NeverBacktracks(r); FirstViolationFindsAny(body);
    case Seq(a, b) => NeverBacktracks(r); FirstViolationFindsAny(a); FirstViolationFindsAny(b);
    case Alt(a, b) => NeverBacktracks(r); FirstViolationFindsAny(a); FirstViolationFindsAny(b);
    case Repeat(x, q) =>
      FirstViolationFindsAny(x);
      BacktracksIsQuantifiedGroup(x, q);
      assert r in Subterms(r);
  }

  lemma NeverBacktracks(r: Regex)
    requires !r.Repeat?
    ensures !Backtracks(r)
  {
  }

  lemma BacktracksIsQuantifiedGroup(x: Regex, q: Quantifier)
    ensures Backtracks(Repeat(x, q)) <==> x.Group? && QuantifiedGroup(x.body, q) != Accepted
  {
    if x.Group? {
      ContainsMeansCounts(x.body);
    }
  }

  // ----- quantifier tokens -----

  predicate StartsQuantifier(s: string) {
    |s| > 0 && (s[0] == '*' || s[0] == '+' || s[0] == '{')
  }

  /** Text both passes step over one character at a time without reacting. */
  predicate Plain(s: string) {
    forall i :: 0 <= i < |s| ==> s[i] !in {'\\', '(', ')', '|', '*', '+', '{'}
  }

  lemma {:induction false} PlainIsSkipped(s: string, rest: string, stack: seq<GroupState>)
    requires Plain(s)
    ensures Walk(s + rest, stack) == Walk(rest, stack)
    ensures CountUnbounded(s + rest) == CountUnbounded(rest)
  {
    if s == [] {
      assert s + rest == rest;
    } else {
      assert (s + rest)[1..] == s[1..] + rest;
      PlainIsSkipped(s[1..], rest, stack);
    }
  }

  lemma DigitsTrim(s: string)
    requires AllDigits(s)
    ensures TrimSpace(s) == s
  {
    assert forall i :: 0 <= i < |s| ==> IsDigit(s[i]) && !IsSpace(s[i]);
    assert TrimLeft(s) == s;
    assert TrimRight(s) == s;
  }

  /** The body of a brace token is what stands between the braces. */
  lemma BraceToken(body: string, rest: string)
    requires '}' !in body
    ensures var p := ['{'] + body + ['}'] + rest;
            IndexByte(p, '}') == |body| + 1 && p[1..|body| + 1] == body && p[|body| + 2..] == rest
  {
    var p := ['{'] + body + ['}'] + rest;
    IndexByteAt(['{'] + body, '}', rest);
  }

  /** Reading the two helpers on a brace token comes down to its body. */
  lemma BraceTokenHelpers(body: string, rest: string)
    requires '}' !in body
    ensures var p := ['{'] + body + ['}'] + rest;
            QuantifierUnbounded(p) == BodyUnbounded(body) && BoundedRepeatBounds(p) == BodyBounds(body)
  {
    hide BodyUnbounded, BodyBounds, IndexByte;
    BraceToken(body, rest);
  }

  /** Reading a printed number back, spaces trimmed. */
  lemma AtoiTrimmed(n: nat)
    ensures Atoi(TrimSpace(Decimal(n))) == if n <= MAX_INT then Some(n) else None
  {
    hide *;
    DigitsTrim(Decimal(n));
    AtoiDecimal(n);
  }

  lemma DecimalHasNoComma(n: nat)
    ensures ',' !in Decimal(n) && '}' !in Decimal(n)
  {
    assert AllDigits(Decimal(n));
  }

  lemma ExactlyToken(n: nat, rest: string)
    ensures var p := PrintQuantifier(Exactly(n)) + rest;
            !QuantifierUnbounded(p) && BoundedRepeatBounds(p) == if n <= MAX_INT then Some((n, n)) else None
  {
    hide Atoi, TrimSpace, IndexByte, QuantifierUnbounded, BoundedRepeatBounds, Decimal;
    var body := Decimal(n);
    DecimalHasNoComma(n);
    BraceTokenHelpers(body, rest);
    AtoiTrimmed(n);
  }

  lemma AtLeastToken(n: nat, rest: string)
    ensures var p := PrintQuantifier(AtLeast(n)) + rest;
            QuantifierUnbounded(p) && p[IndexByte(p, '}') + 1..] == rest
  {
    hide IndexByte, QuantifierUnbounded, Decimal, BoundedRepeatBounds, BodyBounds;
    var body := Decimal(n) + [','];
    DecimalHasNoComma(n);
    BraceToken(body, rest);
    BraceTokenHelpers(body, rest);
    IndexByteAt(Decimal(n), ',', []);
    assert Decimal(n) + [','] + [] == body;
  }

  lemma BetweenToken(n: nat, m: nat, rest: string)
    ensures var p := PrintQuantifier(Between(n, m)) + rest;
            && !QuantifierUnbounded(p)
            && BoundedRepeatBounds(p) == if n <= MAX_INT && m <= MAX_INT then Some((n, m)) else None
  {
    hide Atoi, TrimSpace, IndexByte, QuantifierUnbounded, BoundedRepeatBounds, Decimal;
    var body := Decimal(n) + [','] + Decimal(m);
    DecimalHasNoComma(n);
    DecimalHasNoComma(m);
    BraceTokenHelpers(body, rest);
    IndexByteAt(Decimal(n), ',', Decimal(m));
    AtoiTrimmed(n);
    AtoiTrimmed(m);
    assert body[..|Decimal(n)|] == Decimal(n);
    assert body[|Decimal(n)| + 1..] == Decimal(m);
    assert body[|body| - 1] == Decimal(m)[|Decimal(m)| - 1];
  }

  /** A bounded brace token is passed over: its opening brace is no unbounded quantifier and the rest is plain. */
  lemma BoundedTokenIsSkipped(body: string, rest: string, stack: seq<GroupState>)
    requires Plain(body)
    requires !QuantifierUnbounded(['{'] + body + ['}'] + rest)
    ensures Walk(['{'] + body + ['}'] + rest, stack) == Walk(rest, stack)
    ensures CountUnbounded(['{'] + body + ['}'] + rest) == CountUnbounded(rest)
  {
    var p := ['{'] + body + ['}'] + rest;
    assert p[1..] == (body + ['}']) + rest;
    PlainIsSkipped(body + ['}'], rest, stack);
  }

  lemma StarToken(c: char, rest: string, stack: seq<GroupState>)
    requires c == '*' || c == '+'
    ensures Walk([c] + rest, stack) == Walk(rest, Mark(stack, false, true))
    ensures CountUnbounded([c] + rest) == 1 + CountUnbounded(rest)
  {
    assert ([c] + rest)[1..] == rest;
  }

  lemma UnboundedBrace(p: string, stack: seq<GroupState>)
    requires QuantifierUnbounded(p)
    ensures Walk(p, stack) == Walk(p[IndexByte(p, '}') + 1..], Mark(stack, false, true))
    ensures CountUnbounded(p) == 1 + CountUnbounded(p[1..])
  {
    hide IndexByte, BodyUnbounded, CloseVerdict;
  }

  lemma AtLeastTokenWalk(n: nat, rest: string, stack: seq<GroupState>)
    ensures Walk(PrintQuantifier(AtLeast(n)) + rest, stack) == Walk(rest, Mark(stack, false, true))
    ensures CountUnbounded(PrintQuantifier(AtLeast(n)) + rest) == 1 + CountUnbounded(rest)
  {
    hide IndexByte, QuantifierUnbounded, Decimal, Walk, CountUnbounded;
    var p := PrintQuantifier(AtLeast(n)) + rest;
    AtLeastToken(n, rest);
    UnboundedBrace(p, stack);
    var tail := (Decimal(n) + [',']) + ['}'];
    assert p[1..] == tail + rest;
    assert AllDigits(Decimal(n));
    PlainIsSkipped(tail, rest, stack);
  }

  /** Both passes over one quantifier token. */
  lemma QuantifierToken(q: Quantifier, rest: string, stack: seq<GroupState>)
    ensures Walk(PrintQuantifier(q) + rest, stack) == Walk(rest, Mark(stack, false, Unbounded(q)))
    ensures CountUnbounded(PrintQuantifier(q) + rest) == (if Unbounded(q) then 1 else 0) + CountUnbounded(rest)
  {
    hide Walk, CountUnbounded, QuantifierUnbounded, BoundedRepeatBounds, IndexByte, Decimal;
    assert Mark(stack, false, false) == stack;
    match q
    case Optional => PlainIsSkipped("?", rest, stack);
    case Star => StarToken('*', rest, stack);
    case Plus => StarToken('+', rest, stack);
    case Exactly(n) =>
      ExactlyToken(n, rest);
      DigitsArePlain(n);
      BoundedTokenIsSkipped(Decimal(n), rest, stack);
    case AtLeast(n) =>
      AtLeastTokenWalk(n, rest, stack);
    case Between(n, m) =>
      BetweenToken(n, m, rest);
      DigitsArePlain(n);
      DigitsArePlain(m);
      BoundedTokenIsSkipped(Decimal(n) + [','] + Decimal(m), rest, stack);
  }

  lemma DigitsArePlain(n: nat)
    ensures Plain(Decimal(n))
  {
    assert AllDigits(Decimal(n));
  }

  lemma FirstOfToken(q: Quantifier, rest: string)
    ensures var p := PrintQuantifier(q) + rest;
            && p != []
            && (p[0] == '*' <==> q.Star?) && (p[0] == '+' <==> q.Plus?)
            && (p[0] == '{' <==> q.Exactly? || q.AtLeast? || q.Between?)
  {
    hide Decimal;
  }

  /** What closing a group in front of a quantifier reports. */
  lemma CloseBeforeQuantifier(top: GroupState, q: Quantifier, rest: string)
    ensures CloseVerdict(top, PrintQuantifier(q) + rest) ==
            if Unbounded(q) && top.hasInnerQuant then NestedQuantifier
            else if Unbounded(q) && top.hasAlt then AlternationUnderQuantifier
            else if RepeatsTwice(q) && top.hasInnerQuant then BoundedRepetition
            else Accepted
  {
    hide IndexByte, QuantifierUnbounded, BoundedRepeatBounds, PrintQuantifier;
    var p := PrintQuantifier(q) + rest;
    FirstOfToken(q, rest);
    match q
    case Optional => NotBrace(p);
    case Star => NotBrace(p);
    case Plus => NotBrace(p);
    case Exactly(n) => ExactlyToken(n, rest);
    case AtLeast(n) => AtLeastToken(n, rest);
    case Between(n, m) => BetweenToken(n, m, rest);
  }

  lemma NotBrace(p: string)
    requires p != [] && p[0] != '{'
    ensures !QuantifierUnbounded(p)
  {
  }

  // ----- the scanner on printed trees -----

  /** Trees after which a quantifier may stand without becoming theirs. */
  predicate Sealed(r: Regex) {
    r.Literal? || r.Escape? || r.Repeat?
  }

  lemma PrefixIsPlain(s: string)
    requires IsPrefix(s)
    ensures Plain(s)
  {
  }

  lemma {:induction false} PrintFirstChar(r: Regex)
    requires WellFormed(r)
    ensures !StartsQuantifier(Print(r))
    ensures Sealed(r) || r.Group? ==> Print(r) != []
  {
    hide PrintQuantifier;
    match r
    case Empty =>
    case Literal(_) =>
    case Escape(_) =>
    case Group(_, _) =>
    case Seq(a, b) => PrintFirstChar(a); PrintFirstChar(b);
    case Alt(a, b) => PrintFirstChar(a);
    case Repeat(x, q) => PrintFirstChar(x);
  }

  lemma PrintStartsPlain(r: Regex, rest: string)
    requires WellFormed(r) && !StartsQuantifier(rest)
    ensures !StartsQuantifier(Print(r) + rest)
  {
    hide Print;
    PrintFirstChar(r);
  }

  lemma CountOnText(rest: string, c: char)
    ensures c !in META ==> CountUnbounded([c] + rest) == CountUnbounded(rest)
    ensures CountUnbounded(['\\', c] + rest) == CountUnbounded(rest)
    ensures CountUnbounded(['('] + rest) == CountUnbounded(rest)
    ensures CountUnbounded([')'] + rest) == CountUnbounded(rest)
    ensures CountUnbounded(['|'] + rest) == CountUnbounded(rest)
  {
    hide IndexByte;
    assert ([c] + rest)[1..] == rest;
    assert (['\\', c] + rest)[2..] == rest;
    assert (['('] + rest)[1..] == rest;
    assert ([')'] + rest)[1..] == rest;
    assert (['|'] + rest)[1..] == rest;
  }

  lemma {:induction false} CountOnPrint(r: Regex, rest: string)
    requires WellFormed(r)
    ensures CountUnbounded(Print(r) + rest) == UnboundedQuantifiers(r) + CountUnbounded(rest)
  {
    hide CountUnbounded, PrintQuantifier;
    var p := Print(r) + rest;
    match r
    case Empty => assert p == rest;
    case Literal(c) => CountOnText(rest, c);
    case Escape(c) => CountOnText(rest, c);
    case Group(prefix, body) =>
      var tail := [')'] + rest;
      PrintedGroup(prefix, body, rest);
      CountOnText(prefix + (Print(body) + tail), 'a');
      PrefixIsPlain(prefix);
      PlainIsSkipped(prefix, Print(body) + tail, []);
      CountOnPrint(body, tail);
      CountOnText(rest, 'a');
    case Seq(a, b) =>
      assert p == Print(a) + (Print(b) + rest);
      CountOnPrint(a, Print(b) + rest);
      CountOnPrint(b, rest);
    case Alt(a, b) =>
      var tail := ['|'] + (Print(b) + rest);
      assert p == Print(a) + tail;
      CountOnPrint(a, tail);
      CountOnText(Print(b) + rest, 'a');
      CountOnPrint(b, rest);
    case Repeat(x, q) =>
      assert p == Print(x) + (PrintQuantifier(q) + rest);
      CountOnPrint(x, PrintQuantifier(q) + rest);
      QuantifierToken(q, rest, []);
  }

  function MarkFor(stack: seq<GroupState>, r: Regex): seq<GroupState> {
    Mark(stack, HasAlt(r), UnboundedQuantifiers(r) > 0)
  }

  lemma WalkOnText(rest: string, c: char, stack: seq<GroupState>)
    ensures c !in META ==> Walk([c] + rest, stack) == Walk(rest, stack)
    ensures Walk(['\\', c] + rest, stack) == Walk(rest, stack)
    ensures Walk(['('] + rest, stack) == Walk(rest, stack + [GroupState(false, false)])
    ensures Walk(['|'] + rest, stack) == Walk(rest, Mark(stack, true, false))
  {
    hide IndexByte, CloseVerdict;
    assert ([c] + rest)[1..] == rest;
    assert (['\\', c] + rest)[2..] == rest;
    assert (['('] + rest)[1..] == rest;
    assert (['|'] + rest)[1..] == rest;
  }

  lemma WalkClose(rest: string, stack: seq<GroupState>, top: GroupState)
    ensures Walk([')'] + rest, stack + [top]) ==
            if CloseVerdict(top, rest) != Accepted then CloseVerdict(top, rest)
            else Walk(rest, Mark(stack, top.hasAlt, top.hasInnerQuant))
  {
    hide IndexByte, CloseVerdict;
    assert ([')'] + rest)[1..] == rest;
    assert (stack + [top])[..|stack|] == stack;
  }

  lemma PrintedGroup(prefix: string, body: Regex, rest: string)
    ensures Print(Group(prefix, body)) + rest == ['('] + (prefix + (Print(body) + ([')'] + rest)))
  {
    var inner := Print(body);
    assert ['('] + (prefix + inner) + [')'] + rest == ['('] + (prefix + (inner + ([')'] + rest)));
  }

  lemma MarkTop(stack: seq<GroupState>, alt: bool, quant: bool)
    ensures Mark(stack + [GroupState(false, false)], alt, quant) == stack + [GroupState(alt, quant)]
  {
  }

  /** Walking a closed group up to its closing parenthesis leaves its flags on top of the stack. */
  lemma {:induction false} GroupOnPrint(prefix: string, body: Regex, rest: string, stack: seq<GroupState>)
    requires IsPrefix(prefix) && WellFormed(body)
    ensures Walk(Print(Group(prefix, body)) + rest, stack) ==
            if FirstViolation(body) != Accepted then FirstViolation(body)
            else
              var top := GroupState(HasAlt(body), UnboundedQuantifiers(body) > 0);
              if CloseVerdict(top, rest) != Accepted then CloseVerdict(top, rest)
              else Walk(rest, MarkFor(stack, body))
    decreases Group(prefix, body), 0
  {
    hide Walk, FirstViolation, CloseVerdict, Mark, HasAlt, UnboundedQuantifiers, Plain, IsPrefix;
    var tail := [')'] + rest;
    var inside := stack + [GroupState(false, false)];
    var top := GroupState(HasAlt(body), UnboundedQuantifiers(body) > 0);
    PrintedGroup(prefix, body, rest);
    WalkOnText(prefix + (Print(body) + tail), 'a', stack);
    PrefixIsPlain(prefix);
    PlainIsSkipped(prefix, Print(body) + tail, inside);
    WalkOnPrint(body, tail, inside);
    MarkTop(stack, HasAlt(body), UnboundedQuantifiers(body) > 0);
    WalkClose(rest, stack, top);
  }

  /** The second pass reads a printed tree as the tree: it stops at the tree's first violation, or goes
      on behind it having told the innermost open group what the tree contains. */
  lemma {:induction false} WalkOnPrint(r: Regex, rest: string, stack: seq<GroupState>)
    requires WellFormed(r)
    requires Sealed(r) || !StartsQuantifier(rest)
    ensures Walk(Print(r) + rest, stack) ==
            if FirstViolation(r) != Accepted then FirstViolation(r) else Walk(rest, MarkFor(stack, r))
    decreases r, 1
  {
    hide Walk, CloseVerdict, PrintQuantifier, QuantifiedGroup;
    var p := Print(r) + rest;
    match r
    case Empty =>
      assert p == rest;
      assert MarkFor(stack, r) == stack;
    case Literal(c) =>
      WalkOnText(rest, c, stack);
      assert MarkFor(stack, r) == stack;
    case Escape(c) =>
      WalkOnText(rest, c, stack);
      assert MarkFor(stack, r) == stack;
    case Group(_, body) =>
      GroupOnPrint(r.prefix, body, rest, stack);
      CloseBeforeOther(GroupState(HasAlt(body), UnboundedQuantifiers(body) > 0), rest);
    case Seq(a, b) =>
      assert p == Print(a) + (Print(b) + rest);
      PrintStartsPlain(b, rest);
      WalkOnPrint(a, Print(b) + rest, stack);
      WalkOnPrint(b, rest, MarkFor(stack, a));
      MarkTwice(stack, HasAlt(a), UnboundedQuantifiers(a) > 0, HasAlt(b), UnboundedQuantifiers(b) > 0);
    case Alt(a, b) =>
      AltOnPrint(a, b, rest, stack);
    case Repeat(x, q) =>
      RepeatOnPrint(x, q, rest, stack);
  }

  lemma MarkTwice(stack: seq<GroupState>, alt: bool, quant: bool, alt': bool, quant': bool)
    ensures Mark(Mark(stack, alt, quant), alt', quant') == Mark(stack, alt || alt', quant || quant')
  {
  }

  lemma CloseBeforeOther(top: GroupState, rest: string)
    requires !StartsQuantifier(rest)
    ensures CloseVerdict(top, rest) == Accepted
  {
  }

  lemma AltStarts(rest: string)
    ensures !StartsQuantifier(['|'] + rest)
  {
  }

  lemma {:induction false} AltOnPrint(a: Regex, b: Regex, rest: string, stack: seq<GroupState>)
    requires WellFormed(Alt(a, b)) && !StartsQuantifier(rest)
    ensures Walk(Print(Alt(a, b)) + rest, stack) ==
            if FirstViolation(Alt(a, b)) != Accepted then FirstViolation(Alt(a, b))
            else Walk(rest, MarkFor(stack, Alt(a, b)))
    decreases Alt(a, b), 0
  {
    hide Walk, CloseVerdict, PrintQuantifier, Mark, StartsQuantifier;
    var tail := ['|'] + (Print(b) + rest);
    AltStarts(Print(b) + rest);
    assert Print(Alt(a, b)) + rest == Print(a) + tail;
    WalkOnPrint(a, tail, stack);
    WalkOnText(Print(b) + rest, 'a', MarkFor(stack, a));
    WalkOnPrint(b, rest, Mark(MarkFor(stack, a), true, false));
    MarkTwice(stack, HasAlt(a), UnboundedQuantifiers(a) > 0, true, false);
    MarkTwice(stack, true, UnboundedQuantifiers(a) > 0, HasAlt(b), UnboundedQuantifiers(b) > 0);
  }

  lemma {:induction false} RepeatOnPrint(x: Regex, q: Quantifier, rest: string, stack: seq<GroupState>)
    requires WellFormed(Repeat(x, q))
    ensures Walk(Print(Repeat(x, q)) + rest, stack) ==
            if FirstViolation(Repeat(x, q)) != Accepted then FirstViolation(Repeat(x, q))
            else Walk(rest, MarkFor(stack, Repeat(x, q)))
    decreases Repeat(x, q), 0
  {
    hide Walk, CloseVerdict, PrintQuantifier;
    var tail := PrintQuantifier(q) + rest;
    assert Print(Repeat(x, q)) + rest == Print(x) + tail;
    QuantifierToken(q, rest, MarkFor(stack, x));
    MarkTwice(stack, HasAlt(x), UnboundedQuantifiers(x) > 0, false, Unbounded(q));
    if x.Group? {
      GroupOnPrint(x.prefix, x.body, tail, stack);
      CloseBeforeQuantifier(GroupState(HasAlt(x.body), UnboundedQuantifiers(x.body) > 0), q, rest);
    } else {
      WalkOnPrint(x, tail, stack);
    }
  }

  /** The guard on a printed tree: the reason it gives is the tree's, and it rejects exactly by the rule. */
  lemma ScanDecidesTree(r: Regex)
    requires WellFormed(r)
    ensures Scan(Print(r)) ==
            if UnboundedQuantifiers(r) > MAX_UNBOUNDED then TooManyQuantifiers else FirstViolation(r)
    ensures Scan(Print(r)) != Accepted <==> Pathological(r)
  {
    var p := Print(r);
    assert p + [] == p;
    CountOnPrint(r, []);
    WalkOnPrint(r, [], []);
    FirstViolationFindsAny(r);
  }

  /** Six unbounded quantifiers are too many on any tree, five on none. */
  lemma SixAreTooMany(r: Regex)
    requires WellFormed(r)
    ensures Scan(Print(r)) == TooManyQuantifiers <==> UnboundedQuantifiers(r) >= 6
  {
    hide Scan, Print, UnboundedQuantifiers;
    ScanDecidesTree(r);
    ViolationIsOfAGroup(r);
  }

  /** The second pass never gives the first one's reason. */
  lemma {:induction false} ViolationIsOfAGroup(r: Regex)
    ensures FirstViolation(r) != TooManyQuantifiers
  {
    hide UnboundedQuantifiers, HasAlt;
    match r
    case Empty =>
    case Literal(_) =>
    case Escape(_) =>
    case Group(_, body) => ViolationIsOfAGroup(body);
    case Seq(a, b) => ViolationIsOfAGroup(a); ViolationIsOfAGroup(b);
    case Alt(a, b) => ViolationIsOfAGroup(a); ViolationIsOfAGroup(b);
    case Repeat(x, _) => ViolationIsOfAGroup(x);
  }

  /** `a*a*...a*`, with `n` stars. */
  function Stars(n: nat): Regex {
    if n == 0 then Empty else Seq(Stars(n - 1), Repeat(Literal('a'), Star))
  }

  /** A row of stars is let through exactly up to five of them. */
  lemma {:induction false} RowOfStars(n: nat)
    ensures WellFormed(Stars(n)) && UnboundedQuantifiers(Stars(n)) == n && FirstViolation(Stars(n)) == Accepted
    ensures Scan(Print(Stars(n))) == if n <= 5 then Accepted else TooManyQuantifiers
  {
    hide Scan, Print;
    if n > 0 {
      RowOfStars(n - 1);
    }
    ScanDecidesTree(Stars(n));
  }

  /** A bounded repeat of two or more, whatever the size of its numbers. */
  predicate RepeatsTwiceOnPaper(q: Quantifier) {
    (q.Exactly? && q.n >= 2) || (q.Between? && q.m >= 2)
  }

  /** The documented rules: those of the guard's header, and for bounded repeats the comment where a group closes,
      which takes every upper bound of two or more as a repeat. */
  predicate DocumentedBacktracks(t: Regex) {
    t.Repeat? && t.operand.Group? &&
    var body := t.operand.body;
    || (Unbounded(t.q) && (ContainsUnbounded(body) || ContainsAlternation(body)))
    || (RepeatsTwiceOnPaper(t.q) && ContainsUnbounded(body))
  }

  predicate DocumentedPathological(r: Regex) {
    UnboundedQuantifiers(r) > MAX_UNBOUNDED || exists t :: t in Subterms(r) && DocumentedBacktracks(t)
  }

  /** A bounded repeat of an unbounded group one of whose numbers does not fit a 64-bit int. */
  predicate OversizedRepeat(t: Regex) {
    && t.Repeat? && t.operand.Group? && ContainsUnbounded(t.operand.body)
    && RepeatsTwiceOnPaper(t.q) && (t.q.n > MAX_INT || (t.q.Between? && t.q.m > MAX_INT))
  }

  /** Some documented rule applies to the tree that has nothing to do with an oversized repeat. */
  predicate RefusedOtherwise(r: Regex) {
    UnboundedQuantifiers(r) > MAX_UNBOUNDED || exists t :: t in Subterms(r) && DocumentedBacktracks(t) && !OversizedRepeat(t)
  }

  /** The guard agrees with the documented rules exactly on the trees without an oversized repeat, and on those
      that another documented rule refuses anyway. */
  lemma GuardMatchesDocumentation(r: Regex)
    requires WellFormed(r)
    ensures (Scan(Print(r)) != Accepted <==> DocumentedPathological(r)) <==>
            ((exists t :: t in Subterms(r) && OversizedRepeat(t)) ==> RefusedOtherwise(r))
  {
    hide Scan, Print, Subterms, ContainsUnbounded, ContainsAlternation, UnboundedQuantifiers;
    ScanDecidesTree(r);
    assert forall t :: DocumentedBacktracks(t) <==> Backtracks(t) || OversizedRepeat(t);
  }

  /** The bound on bounds is needed: a count one above the largest int is not read as a repeat. */
  lemma OversizedBoundIsNotARepeat()
    ensures var r := Repeat(Group("", Repeat(Literal('a'), Plus)), Exactly(MAX_INT + 1));
            WellFormed(r) && DocumentedPathological(r) && Scan(Print(r)) == Accepted
  {
    var inner := Repeat(Literal('a'), Plus);
    var r := Repeat(Group("", inner), Exactly(MAX_INT + 1));
    ScanDecidesTree(r);
    ContainsMeansCounts(inner);
    assert r in Subterms(r);
  }
}
