/** Replacing null escapes in JSON text (postgres_db/src/change_log.rs). */
module NullEscape {
  // ---------- The six-state machine ----------

  datatype State = S0 | S1 | S2 | S3 | S4 | S5

  /** The next state, and what is pushed. */
  function Step(q: State, c: char): (State, string) {
    match q
    case S0 => if c == '\\' then (S1, "") else (S0, [c])
    case S1 => if c == 'u' then (S2, "") else (S0, ['\\', c])
    case S2 => if c == '0' then (S3, "") else (S0, "\\u" + [c])
    case S3 => if c == '0' then (S4, "") else (S0, "\\u0" + [c])
    case S4 => if c == '0' then (S5, "") else (S0, "\\u00" + [c])
    case S5 => if c == '0' then (S0, "[NULL]") else (S0, "\\u000" + [c])
  }

  /** The state reached from `q`, and all that is pushed on the way. */
  function Machine(q: State, s: string): (State, string)
    decreases |s|
  {
    if s == "" then (q, "") else
      var (next, out) := Step(q, s[0]);
      var (last, rest) := Machine(next, s[1..]);
      (last, out + rest)
  }

  lemma {:induction false} MachineConcat(q: State, a: string, b: string)
    ensures var (m, x) := Machine(q, a); var (l, y) := Machine(m, b); Machine(q, a + b) == (l, x + y)
    decreases |a|
  {
    if a == "" {
      assert a + b == b;
      assert "" + Machine(q, b).1 == Machine(q, b).1;
    } else {
      var (next, out) := Step(q, a[0]);
      assert (a + b)[1..] == a[1..] + b;
      MachineConcat(next, a[1..], b);
      var (m, x) := Machine(next, a[1..]);
      var (l, y) := Machine(m, b);
      assert out + (x + y) == (out + x) + y;
    }
  }

  lemma MachineOne(q: State, c: char)
    ensures Machine(q, [c]) == Step(q, c)
  {
    assert [c][1..] == "";
    assert Step(q, c).1 + "" == Step(q, c).1;
  }

  /** `sanitize_null_escapes`. */
  method Sanitize(s: string) returns (sanitized: string)
    ensures sanitized == Machine(S0, s).1
    ensures forall ts :: AllOk(ts) && s == Text(ts) ==> sanitized == Text(Replaced(ts))
  {
    sanitized := "";
    var state := S0;
    for i := 0 to |s|
      invariant (state, sanitized) == Machine(S0, s[..i])
    {
      assert s[..i + 1] == s[..i] + [s[i]];
      MachineConcat(S0, s[..i], [s[i]]);
      MachineOne(state, s[i]);
      var c := s[i];
      assert sanitized + "" == sanitized;
      match state {
        case S0 =>
          if c == '\\' { state := S1; } else { sanitized := sanitized + [c]; }
        case S1 =>
          if c == 'u' { state := S2; } else { sanitized := sanitized + ['\\', c]; state := S0; }
        case S2 =>
          if c == '0' { state := S3; } else { sanitized := sanitized + ("\\u" + [c]); state := S0; }
        case S3 =>
          if c == '0' { state := S4; } else { sanitized := sanitized + ("\\u0" + [c]); state := S0; }
        case S4 =>
          if c == '0' { state := S5; } else { sanitized := sanitized + ("\\u00" + [c]); state := S0; }
        case S5 =>
          if c == '0' { sanitized := sanitized + "[NULL]"; } else { sanitized := sanitized + ("\\u000" + [c]); }
          state := S0;
      }
    }
    assert s[..|s|] == s;
    forall ts | AllOk(ts) && s == Text(ts) ensures sanitized == Text(Replaced(ts)) {
      SanitizeReplaces(ts);
    }
  }

  // ---------- Tokens ----------

  /** A token of JSON text, as section 7 of RFC 8259 has them: a character other than a backslash, a backslash with
      another character than `u`, or a `\u` escape with four hexadecimal digits. */
  datatype Token = Plain(c: char) | Escape(c: char) | Unicode(a: char, b: char, x: char, d: char)

  predicate Hex(c: char) {
    '0' <= c <= '9' || 'a' <= c <= 'f' || 'A' <= c <= 'F'
  }

  predicate TokenOk(t: Token) {
    match t
    case Plain(c) => c != '\\'
    case Escape(c) => c != 'u'
    case Unicode(a, b, x, d) => Hex(a) && Hex(b) && Hex(x) && Hex(d)
  }

  predicate AllOk(ts: seq<Token>) {
    forall i :: 0 <= i < |ts| ==> TokenOk(ts[i])
  }

  function TokenText(t: Token): string {
    match t
    case Plain(c) => [c]
    case Escape(c) => ['\\', c]
    case Unicode(a, b, x, d) => ['\\', 'u', a, b, x, d]
  }

  function Text(ts: seq<Token>): string
    decreases |ts|
  {
    if ts == [] then "" else TokenText(ts[0]) + Text(ts[1..])
  }

  const NULL_ESCAPE: Token := Unicode('0', '0', '0', '0')

  /** `[NULL]`. */
  const MARK: seq<Token> := [Plain('['), Plain('N'), Plain('U'), Plain('L'), Plain('L'), Plain(']')]

  /** Each null escape becomes `[NULL]`, and all other tokens stay. */
  function Replaced(ts: seq<Token>): seq<Token>
    decreases |ts|
  {
    if ts == [] then [] else (if ts[0] == NULL_ESCAPE then MARK else [ts[0]]) + Replaced(ts[1..])
  }

  lemma MachineTwo(q: State, c: char, s: string)
    requires |s| > 0
    ensures var (m, x) := Step(q, c); var (l, y) := Machine(m, s); Machine(q, [c] + s) == (l, x + y)
  {
    assert ([c] + s)[1..] == s;
  }

  /** After a `\u`, the machine keeps the four digits unless all are zero. */
  lemma MachineDigits(a: char, b: char, x: char, d: char)
    requires Hex(a) && Hex(b) && Hex(x) && Hex(d)
    ensures Machine(S2, [a, b, x, d])
         == (S0, if [a, b, x, d] == "0000" then "[NULL]" else ['\\', 'u', a, b, x, d])
  {
    assert [a, b, x, d] == [a] + [b, x, d] && [b, x, d] == [b] + [x, d] && [x, d] == [x] + [d];
    MachineTwo(S2, a, [b, x, d]);
    var (q1, o1) := Step(S2, a);
    MachineTwo(q1, b, [x, d]);
    var (q2, o2) := Step(q1, b);
    MachineTwo(q2, x, [d]);
    var (q3, o3) := Step(q2, x);
    MachineOne(q3, d);
    var o4 := Step(q3, d).1;
    assert o1 + (o2 + (o3 + o4)) == if [a, b, x, d] == "0000" then "[NULL]" else ['\\', 'u', a, b, x, d];
  }

  /** From the initial state the machine handles one token and returns to the initial state. */
  lemma MachineToken(t: Token)
    requires TokenOk(t)
    ensures Machine(S0, TokenText(t)) == (S0, if t == NULL_ESCAPE then "[NULL]" else TokenText(t))
  {
    match t {
      case Plain(c) => MachineOne(S0, c);
      case Escape(c) =>
        assert TokenText(t) == ['\\'] + [c];
        MachineTwo(S0, '\\', [c]);
        MachineOne(S1, c);
        assert "" + TokenText(t) == TokenText(t);
      case Unicode(a, b, x, d) =>
        assert TokenText(t) == ['\\'] + (['u'] + [a, b, x, d]);
        MachineTwo(S0, '\\', ['u'] + [a, b, x, d]);
        MachineTwo(S1, 'u', [a, b, x, d]);
        MachineDigits(a, b, x, d);
        var digits := Machine(S2, [a, b, x, d]).1;
        assert "" + ("" + digits) == digits;
    }
  }

  lemma MarkText()
    ensures Text(MARK) == "[NULL]"
  {
    assert MARK[1..] == [Plain('N'), Plain('U'), Plain('L'), Plain('L'), Plain(']')];
    assert MARK[1..][1..] == [Plain('U'), Plain('L'), Plain('L'), Plain(']')];
    assert MARK[1..][1..][1..] == [Plain('L'), Plain('L'), Plain(']')];
    assert MARK[1..][1..][1..][1..] == [Plain('L'), Plain(']')];
    assert MARK[1..][1..][1..][1..][1..] == [Plain(']')];
    assert MARK[1..][1..][1..][1..][1..][1..] == [];
  }

  lemma {:induction false} TextConcat(a: seq<Token>, b: seq<Token>)
    ensures Text(a + b) == Text(a) + Text(b)
    decreases |a|
  {
    if a == [] {
      assert a + b == b;
    } else {
      assert (a + b)[1..] == a[1..] + b;
      TextConcat(a[1..], b);
    }
  }

  lemma TextOne(t: Token)
    ensures Text([t]) == TokenText(t)
  {
    assert [t][1..] == [];
  }

  /** On the text of any token stream the machine replaces exactly the null escapes. */
  lemma {:induction false} SanitizeReplaces(ts: seq<Token>)
    requires AllOk(ts)
    ensures Machine(S0, Text(ts)) == (S0, Text(Replaced(ts)))
    decreases |ts|
  {
    if ts != [] {
      MachineToken(ts[0]);
      SanitizeReplaces(ts[1..]);
      MachineConcat(S0, TokenText(ts[0]), Text(ts[1..]));
      var first := if ts[0] == NULL_ESCAPE then MARK else [ts[0]];
      TextConcat(first, Replaced(ts[1..]));
      MarkText();
      TextOne(ts[0]);
    }
  }

  /** The result is again a token stream, and has no null escape. */
  lemma {:induction false} NoNullLeft(ts: seq<Token>)
    requires AllOk(ts)
    ensures AllOk(Replaced(ts)) && NULL_ESCAPE !in Replaced(ts)
    decreases |ts|
  {
    if ts != [] {
      NoNullLeft(ts[1..]);
    }
  }

  lemma {:induction false} NothingToReplace(ts: seq<Token>)
    requires NULL_ESCAPE !in ts
    ensures Replaced(ts) == ts
    decreases |ts|
  {
    if ts != [] {
      assert ts == [ts[0]] + ts[1..];
      NothingToReplace(ts[1..]);
    }
  }

  /** Sanitising twice is sanitising once. */
  lemma Idempotent(ts: seq<Token>)
    requires AllOk(ts)
    ensures Machine(S0, Machine(S0, Text(ts)).1).1 == Machine(S0, Text(ts)).1
  {
    NoNullLeft(ts);
    SanitizeReplaces(ts);
    SanitizeReplaces(Replaced(ts));
    NothingToReplace(Replaced(ts));
  }

  lemma TextEmpty(ts: seq<Token>)
    ensures Text(ts) == "" <==> ts == []
  {
    if ts != [] {
      assert |TokenText(ts[0])| > 0;
    }
  }

  /** A text is the text of one token stream only, so that what it escapes is determined by the text. */
  lemma {:induction false} OneReading(a: seq<Token>, b: seq<Token>)
    requires AllOk(a) && AllOk(b) && Text(a) == Text(b)
    ensures a == b
    decreases |a|
  {
    TextEmpty(a);
    TextEmpty(b);
    if a != [] {
      FirstToken(a[0], Text(a[1..]), b[0], Text(b[1..]));
      OneReading(a[1..], b[1..]);
      assert a == [a[0]] + a[1..] && b == [b[0]] + b[1..];
    }
  }

  lemma FirstToken(t: Token, s: string, u: Token, r: string)
    requires TokenOk(t) && TokenOk(u) && TokenText(t) + s == TokenText(u) + r
    ensures t == u && s == r
  {
    var whole := TokenText(t) + s;
    assert whole[0] == TokenText(t)[0] && whole[0] == TokenText(u)[0];
    if |TokenText(t)| > 1 {
      assert whole[1] == TokenText(t)[1];
    }
    if |TokenText(u)| > 1 {
      assert whole[1] == TokenText(u)[1];
    }
    assert |TokenText(t)| == |TokenText(u)|;
    assert whole[..|TokenText(t)|] == TokenText(t) && whole[..|TokenText(t)|] == TokenText(u);
    assert whole[|TokenText(t)|..] == s && whole[|TokenText(t)|..] == r;
  }

  /** On text that is no token stream the machine may leave a null escape: here the first `\u` has no digits. */
  lemma MalformedKeepsNull()
    ensures Machine(S0, "\\u\\u0000").1 == "\\u\\u0000"
  {
    var rest := "u0000";
    assert "\\u\\u0000" == ['\\'] + (['u'] + (['\\'] + rest));
    MachineTwo(S0, '\\', ['u'] + (['\\'] + rest));
    MachineTwo(S1, 'u', ['\\'] + rest);
    MachineTwo(S2, '\\', rest);
    PlainKept(rest);
  }

  lemma {:induction false} PlainKept(s: string)
    requires '\\' !in s
    ensures Machine(S0, s) == (S0, s)
    decreases |s|
  {
    if s != "" {
      PlainKept(s[1..]);
      assert s == [s[0]] + s[1..];
    }
  }
}
