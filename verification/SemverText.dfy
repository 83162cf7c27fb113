/** Parsing and printing of version numbers, for ASCII text
    (semver_spec_serialization/src/lib.rs, postgres_db/src/custom_types/mod.rs). */
module SemverText {
  import opened Optional

  datatype Tag = Text(s: string) | Num(n: int)

  datatype Semver = Semver(major: int, minor: int, bug: int, prerelease: seq<Tag>, build: seq<string>)

  datatype ParseError = IntOutOfRange | NoMatch

  datatype Result<T> = Ok(value: T) | Err(error: ParseError)

  // ---------- Characters ----------

  predicate IsDigit(c: char) {
    '0' <= c <= '9'
  }

  predicate IsSpace(c: char) {
    c == ' ' || '\t' <= c <= '\r'
  }

  /** `[0-9A-Za-z-]`. */
  predicate IdChar(c: char) {
    IsDigit(c) || 'a' <= c <= 'z' || 'A' <= c <= 'Z' || c == '-'
  }

  predicate AllDigits(s: string) {
    forall i :: 0 <= i < |s| ==> IsDigit(s[i])
  }

  // ---------- Integers ----------

  const MAX_I64 := 0x7fff_ffff_ffff_ffff
  const MIN_I64 := -0x8000_0000_0000_0000

  function Value(s: string): nat
    requires AllDigits(s)
    decreases |s|
  {
    if s == "" then 0 else Value(s[..|s| - 1]) * 10 + (s[|s| - 1] as int - '0' as int)
  }

  /** `str::parse::<i64>`: an optional sign and digits, in range. */
  function ParseI64(s: string): Option<int> {
    var digits := if s != "" && (s[0] == '-' || s[0] == '+') then s[1..] else s;
    if digits == "" || !AllDigits(digits) then None
    else
      var n := if s[0] == '-' then -(Value(digits) as int) else Value(digits);
      if MIN_I64 <= n <= MAX_I64 then Some(n) else None
  }

  function Decimal(n: nat): (s: string)
    ensures s != "" && AllDigits(s)
  {
    if n < 10 then [('0' as int + n) as char] else Decimal(n / 10) + [('0' as int + n % 10) as char]
  }

  function PrintInt(n: int): string {
    if n < 0 then "-" + Decimal(-n) else Decimal(n)
  }

  lemma {:induction false} ValueDecimal(n: nat)
    ensures Value(Decimal(n)) == n
  {
    if n < 10 {
      assert Decimal(n)[..0] == "";
    } else {
      ValueDecimal(n / 10);
      assert Decimal(n)[..|Decimal(n)| - 1] == Decimal(n / 10);
    }
  }

  lemma ParsesDigits(s: string)
    requires s != "" && AllDigits(s)
    ensures Value(s) <= MAX_I64 ==> ParseI64(s) == Some(Value(s))
    ensures 0 - Value(s) >= MIN_I64 ==> ParseI64("-" + s) == Some(0 - Value(s))
  {
    assert IsDigit(s[0]);
    assert ("-" + s)[1..] == s;
  }

  /** Printing and parsing an integer in range gives it back. */
  lemma IntRoundTrip(n: int)
    requires MIN_I64 <= n <= MAX_I64
    ensures ParseI64(PrintInt(n)) == Some(n)
  {
    hide ParseI64;
    var m := if n < 0 then -n else n;
    ValueDecimal(m);
    ParsesDigits(Decimal(m));
  }

  // ---------- Identifiers between dots ----------

  function Split(s: string): (r: seq<string>)
    ensures r != []
    decreases |s|
  {
    if s == "" then [""]
    else
      var rest := Split(s[1..]);
      if s[0] == '.' then [""] + rest else [[s[0]] + rest[0]] + rest[1..]
  }

  function Join(parts: seq<string>): string
    decreases |parts|
  {
    if parts == [] then "" else if |parts| == 1 then parts[0] else parts[0] + "." + Join(parts[1..])
  }

  lemma {:induction false} SplitPlain(s: string)
    requires '.' !in s
    ensures Split(s) == [s]
    decreases |s|
  {
    if s != "" {
      SplitPlain(s[1..]);
      assert s == [s[0]] + s[1..];
    }
  }

  lemma {:induction false} SplitDot(a: string, b: string)
    requires '.' !in a
    ensures Split(a + "." + b) == [a] + Split(b)
    decreases |a|
  {
    var s := a + "." + b;
    if a == "" {
      assert s[1..] == b;
    } else {
      assert s[1..] == a[1..] + "." + b;
      SplitDot(a[1..], b);
      assert [a[0]] + a[1..] == a;
      assert ([a[1..]] + Split(b))[1..] == Split(b);
    }
  }

  lemma {:induction false} SplitJoin(parts: seq<string>)
    requires parts != [] && forall p :: p in parts ==> '.' !in p
    ensures Split(Join(parts)) == parts
    decreases |parts|
  {
    if |parts| == 1 {
      SplitPlain(parts[0]);
    } else {
      SplitJoin(parts[1..]);
      SplitDot(parts[0], Join(parts[1..]));
      assert parts == [parts[0]] + parts[1..];
    }
  }

  predicate IdOk(p: string) {
    p != "" && forall i :: 0 <= i < |p| ==> IdChar(p[i])
  }

  /** `[0-9]+|\d*[a-zA-Z-][a-zA-Z0-9-]*`, the pattern of a prerelease identifier. */
  predicate IdPattern(p: string) {
    (p != "" && AllDigits(p)) || exists k :: 0 <= k < |p| && WordAt(p, k)
  }

  /** Digits, then a letter or hyphen at `k`, then any of them. */
  predicate WordAt(p: string, k: nat)
    requires k < |p|
  {
    AllDigits(p[..k]) && IdChar(p[k]) && !IsDigit(p[k]) && forall i :: k < i < |p| ==> IdChar(p[i])
  }

  /** A prerelease identifier is any word of letters, digits and hyphens. */
  lemma IdPatternIs(p: string)
    ensures IdPattern(p) <==> IdOk(p)
  {
    if IdOk(p) {
      var k := DigitRun(p);
      if k < |p| {
        assert WordAt(p, k);
      } else {
        assert p[..k] == p;
      }
    }
    if k :| 0 <= k < |p| && WordAt(p, k) {
      forall i | 0 <= i < |p| ensures IdChar(p[i]) {
        if i < k {
          assert p[..k][i] == p[i];
        }
      }
    }
  }

  /** Identifiers joined by dots. */
  predicate IdsOk(s: string) {
    forall p :: p in Split(s) ==> IdOk(p)
  }

  // ---------- The pattern ----------

  function DigitRun(s: string): (n: nat)
    ensures n <= |s| && AllDigits(s[..n]) && (n < |s| ==> !IsDigit(s[n]))
    decreases |s|
  {
    if s == "" || !IsDigit(s[0]) then 0 else
      assert s[1..][..DigitRun(s[1..])] == s[..1 + DigitRun(s[1..])][1..];
      1 + DigitRun(s[1..])
  }

  function TrimStart(s: string): string
    decreases |s|
  {
    if s != "" && IsSpace(s[0]) then TrimStart(s[1..]) else s
  }

  function TrimEnd(s: string): string
    decreases |s|
  {
    if s != "" && IsSpace(s[|s| - 1]) then TrimEnd(s[..|s| - 1]) else s
  }

  predicate AllSpaces(s: string) {
    forall i :: 0 <= i < |s| ==> IsSpace(s[i])
  }

  /** Trimming takes away all spaces at the start, and nothing else. */
  lemma {:induction false} TrimStartIs(s: string) returns (spaces: string)
    ensures AllSpaces(spaces) && s == spaces + TrimStart(s)
    ensures TrimStart(s) != "" ==> !IsSpace(TrimStart(s)[0])
    decreases |s|
  {
    spaces := "";
    if s != "" && IsSpace(s[0]) {
      var rest := TrimStartIs(s[1..]);
      spaces := [s[0]] + rest;
      assert s == [s[0]] + s[1..];
    }
  }

  /** Trimming takes away all spaces at the end, and nothing else. */
  lemma {:induction false} TrimEndIs(s: string) returns (spaces: string)
    ensures AllSpaces(spaces) && s == TrimEnd(s) + spaces
    ensures TrimEnd(s) != "" ==> !IsSpace(TrimEnd(s)[|TrimEnd(s)| - 1])
    decreases |s|
  {
    spaces := "";
    if s != "" && IsSpace(s[|s| - 1]) {
      var rest := TrimEndIs(s[..|s| - 1]);
      spaces := rest + [s[|s| - 1]];
      assert s == s[..|s| - 1] + [s[|s| - 1]];
    }
  }

  /** `[v=\s]*`. */
  function SkipPrefix(s: string): string
    decreases |s|
  {
    if s != "" && (s[0] == 'v' || s[0] == '=' || IsSpace(s[0])) then SkipPrefix(s[1..]) else s
  }

  function FindPlus(s: string): (n: nat)
    ensures n <= |s| && '+' !in s[..n] && (n < |s| ==> s[n] == '+')
    decreases |s|
  {
    if s == "" || s[0] == '+' then 0 else
      assert forall i :: 0 < i < 1 + FindPlus(s[1..]) ==> s[i] == s[1..][..FindPlus(s[1..])][i - 1];
      1 + FindPlus(s[1..])
  }

  /** What the capture groups hold. */
  datatype Groups = Groups(m1: string, m2: string, m3: string, pre: Option<string>, build: Option<string>)

  /** The third number and the prerelease, from what lies before a `+`. The number takes as many digits as it can, but
      gives some back when the rest does not match, and the hyphen is optional but taken as one first. */
  function MatchTail(body: string, k: nat): Option<(string, Option<string>)>
    requires k <= |body|
  {
    if k == 0 then None else
      var rest := body[k..];
      if rest == "" then Some((body, None))
      else if rest[0] == '-' && IdsOk(rest[1..]) then Some((body[..k], Some(rest[1..])))
      else if IdsOk(rest) then Some((body[..k], Some(rest)))
      else MatchTail(body, k - 1)
  }

  /** The groups, once the first two numbers are found and `r` is what follows their dots. */
  function MatchRest(m1: string, m2: string, r: string): Option<Groups> {
    var plus := FindPlus(r);
    if plus < |r| && !IdsOk(r[plus + 1..]) then None else
      var tail := MatchTail(r[..plus], DigitRun(r[..plus]));
      if tail == None then None
      else Some(Groups(m1, m2, tail.value.0, tail.value.1, if plus < |r| then Some(r[plus + 1..]) else None))
  }

  /** A number and its dot at the start of a text. */
  predicate HasHead(t: string) {
    0 < DigitRun(t) < |t| && t[DigitRun(t)] == '.'
  }

  function AfterHead(t: string): string
    requires HasHead(t)
  {
    t[DigitRun(t) + 1..]
  }

  function Head(t: string): string {
    t[..DigitRun(t)]
  }

  function Match(text: string): Option<Groups> {
    var t := SkipPrefix(text);
    if !HasHead(t) then None else
      var u := AfterHead(t);
      if !HasHead(u) then None else MatchRest(Head(t), Head(u), AfterHead(u))
  }

  function ParseTag(s: string): Tag {
    var n := ParseI64(s);
    if n.Some? then Num(n.value) else Text(s)
  }

  function ParseTags(parts: seq<string>): (r: seq<Tag>)
    ensures |r| == |parts| && forall i :: 0 <= i < |parts| ==> r[i] == ParseTag(parts[i])
  {
    seq(|parts|, i requires 0 <= i < |parts| => ParseTag(parts[i]))
  }

  /** `parse_semver`. */
  function Parse(s: string): Result<Semver> {
    var g := Match(TrimEnd(TrimStart(s)));
    if g == None then Err(NoMatch) else
      var a, b, c := ParseI64(g.value.m1), ParseI64(g.value.m2), ParseI64(g.value.m3);
      if a == None || b == None || c == None then Err(IntOutOfRange) else
        Ok(Semver(a.value, b.value, c.value,
                  if g.value.pre.Some? then ParseTags(Split(g.value.pre.value)) else [],
                  if g.value.build.Some? then Split(g.value.build.value) else []))
  }

  // ---------- Printing ----------

  function TagText(t: Tag): string {
    match t
    case Text(s) => s
    case Num(n) => PrintInt(n)
  }

  function TagTexts(tags: seq<Tag>): (r: seq<string>)
    ensures |r| == |tags| && forall i :: 0 <= i < |tags| ==> r[i] == TagText(tags[i])
  {
    seq(|tags|, i requires 0 <= i < |tags| => TagText(tags[i]))
  }

  /** `Display` of a version. */
  function Print(v: Semver): string {
    PrintInt(v.major) + "." + (PrintInt(v.minor) + "." + (PrintInt(v.bug)
      + (if v.prerelease == [] then "" else "-" + Join(TagTexts(v.prerelease)))
      + (if v.build == [] then "" else "+" + Join(v.build))))
  }

  // ---------- The recogniser against the pattern ----------

  lemma {:induction false} DigitRunAt(a: string, rest: string)
    requires AllDigits(a) && (rest == "" || !IsDigit(rest[0]))
    ensures DigitRun(a + rest) == |a|
    decreases |a|
  {
    if a == "" {
      assert a + rest == rest;
    } else {
      assert (a + rest)[1..] == a[1..] + rest;
      DigitRunAt(a[1..], rest);
    }
  }

  lemma {:induction false} FindPlusAt(a: string, rest: string)
    requires '+' !in a && (rest == "" || rest[0] == '+')
    ensures FindPlus(a + rest) == |a|
    decreases |a|
  {
    if a == "" {
      assert a + rest == rest;
    } else {
      assert (a + rest)[1..] == a[1..] + rest;
      FindPlusAt(a[1..], rest);
    }
  }

  predicate PrefixChar(c: char) {
    c == 'v' || c == '=' || IsSpace(c)
  }

  lemma {:induction false} SkipAt(prefix: string, rest: string)
    requires (forall c :: c in prefix ==> PrefixChar(c)) && rest != "" && IsDigit(rest[0])
    ensures SkipPrefix(prefix + rest) == rest
    decreases |prefix|
  {
    if prefix == "" {
      assert prefix + rest == rest;
    } else {
      assert (prefix + rest)[0] in prefix;
      assert (prefix + rest)[1..] == prefix[1..] + rest;
      SkipAt(prefix[1..], rest);
    }
  }

  function BuildText(build: Option<string>): string {
    if build.Some? then "+" + build.value else ""
  }

  predicate NumberText(s: string) {
    s != "" && AllDigits(s)
  }

  /** The first number of a text ends at its dot. */
  lemma HeadAt(a: string, rest: string)
    requires NumberText(a)
    ensures HasHead(a + "." + rest) && Head(a + "." + rest) == a && AfterHead(a + "." + rest) == rest
  {
    var t := a + "." + rest;
    assert t == a + ("." + rest);
    DigitRunAt(a, "." + rest);
  }

  lemma HeadSplits(t: string)
    requires HasHead(t)
    ensures t == Head(t) + "." + AfterHead(t) && NumberText(Head(t))
  {
  }

  lemma RestParts(m1: string, m2: string, body: string, build: Option<string>)
    requires '+' !in body && (build.Some? ==> IdsOk(build.value))
    ensures var tail := MatchTail(body, DigitRun(body));
      MatchRest(m1, m2, body + BuildText(build))
        == if tail == None then None else Some(Groups(m1, m2, tail.value.0, tail.value.1, build))
  {
    var r := body + BuildText(build);
    FindPlusAt(body, BuildText(build));
    assert r[..|body|] == body;
    if build.Some? {
      assert r[|body| + 1..] == build.value;
    }
  }

  /** Everything but the third number and the prerelease is forced by the text. */
  lemma MatchParts(prefix: string, m1: string, m2: string, r: string)
    requires (forall c :: c in prefix ==> PrefixChar(c)) && NumberText(m1) && NumberText(m2)
    ensures Match(prefix + (m1 + "." + (m2 + "." + r))) == MatchRest(m1, m2, r)
  {
    hide DigitRun, MatchRest, SkipPrefix, HasHead, Head, AfterHead;
    var u := m2 + "." + r;
    var t := m1 + "." + u;
    assert t != "" && t[0] == m1[0];
    SkipAt(prefix, t);
    HeadAt(m1, u);
    HeadAt(m2, r);
  }

  /** The text between the third number and the `+`. */
  function PreText(dash: bool, pre: Option<string>): string {
    if pre == None then "" else if dash then "-" + pre.value else pre.value
  }

  /** `text` matches the pattern with these groups; `dash` says whether the optional hyphen is used. */
  ghost predicate Matches(text: string, prefix: string, g: Groups, dash: bool) {
    && text == prefix + (g.m1 + "." + (g.m2 + "." + ((g.m3 + PreText(dash, g.pre)) + BuildText(g.build))))
    && (forall c :: c in prefix ==> PrefixChar(c))
    && NumberText(g.m1) && NumberText(g.m2) && NumberText(g.m3)
    && (g.pre.Some? ==> IdsOk(g.pre.value)) && (g.build.Some? ==> IdsOk(g.build.value))
  }

  /** Identifiers joined by dots have no other characters than theirs and dots. */
  lemma {:induction false} IdsChars(s: string)
    requires IdsOk(s)
    ensures forall i :: 0 <= i < |s| ==> IdChar(s[i]) || s[i] == '.'
  {
    PartsChars(s);
  }

  lemma {:induction false} PartsChars(s: string)
    requires forall p :: p in Split(s) ==> forall i :: 0 <= i < |p| ==> IdChar(p[i])
    ensures forall i :: 0 <= i < |s| ==> IdChar(s[i]) || s[i] == '.'
    decreases |s|
  {
    if s != "" {
      var rest, parts := Split(s[1..]), Split(s);
      if s[0] == '.' {
        assert forall p :: p in rest ==> p in parts;
      } else {
        assert parts[0] in parts && parts[0] == [s[0]] + rest[0];
        assert IdChar(parts[0][0]);
        forall p | p in rest ensures forall i :: 0 <= i < |p| ==> IdChar(p[i]) {
          var k :| 0 <= k < |rest| && rest[k] == p;
          if k == 0 {
            assert forall i :: 0 <= i < |p| ==> p[i] == parts[0][i + 1];
          } else {
            assert parts[k] == p;
          }
        }
      }
      PartsChars(s[1..]);
      assert forall i :: 0 < i < |s| ==> s[i] == s[1..][i - 1];
    }
  }

  lemma DigitPrefix(body: string, k: nat)
    requires k <= DigitRun(body)
    ensures AllDigits(body[..k])
  {
    assert forall i :: 0 <= i < k ==> body[..DigitRun(body)][i] == body[i];
  }

  /** Whatever the search for the third number finds is a number and, if anything follows it, a prerelease. */
  lemma {:induction false} TailSound(body: string, k: nat) returns (dash: bool)
    requires k <= DigitRun(body) && MatchTail(body, k).Some?
    ensures var (m3, pre) := MatchTail(body, k).value;
      NumberText(m3) && body == m3 + PreText(dash, pre) && (pre.Some? ==> IdsOk(pre.value))
  {
    hide IdsOk, DigitRun, AllDigits;
    var rest := body[k..];
    assert body == body[..k] + rest;
    DigitPrefix(body, k);
    assert rest == "" ==> body[..k] == body;
    dash := rest != "" && rest[0] == '-' && IdsOk(rest[1..]);
    if rest != "" && !dash && !IdsOk(rest) {
      dash := TailSound(body, k - 1);
    } else if dash {
      assert rest == "-" + rest[1..];
    }
  }

  /** If the text can be matched with a number of `n` digits, the search finds a match whose number is at least as
      long. */
  lemma {:induction false} TailComplete(body: string, k: nat, m3: string, dash: bool, pre: Option<string>)
    requires NumberText(m3) && body == m3 + PreText(dash, pre) && (pre.Some? ==> IdsOk(pre.value))
    requires |m3| <= k <= DigitRun(body)
    ensures MatchTail(body, k).Some? && |MatchTail(body, k).value.0| >= |m3|
  {
    hide IdsOk, AllDigits;
    var rest := body[k..];
    if k == |m3| {
      assert rest == PreText(dash, pre);
      if pre.Some? {
        IdsNotEmpty(pre.value);
        if dash {
          assert rest[1..] == pre.value;
        }
      } else {
        assert body == m3;
      }
    } else {
      TailComplete(body, k - 1, m3, dash, pre);
    }
  }

  lemma IdsNotEmpty(s: string)
    requires IdsOk(s)
    ensures s != ""
  {
    assert Split(s)[0] in Split(s);
  }

  lemma NoPlus(m3: string, dash: bool, pre: Option<string>)
    requires NumberText(m3) && (pre.Some? ==> IdsOk(pre.value))
    ensures '+' !in m3 + PreText(dash, pre)
  {
    if pre.Some? {
      IdsChars(pre.value);
    }
  }

  /** The recogniser accepts a text just when the pattern matches it. */
  lemma MatchIsComplete(text: string, prefix: string, g: Groups, dash: bool)
    requires Matches(text, prefix, g, dash)
    ensures Match(text).Some? && |Match(text).value.m3| >= |g.m3|
    ensures Match(text).value.m1 == g.m1 && Match(text).value.m2 == g.m2 && Match(text).value.build == g.build
  {
    var body := g.m3 + PreText(dash, g.pre);
    NoPlus(g.m3, dash, g.pre);
    MatchParts(prefix, g.m1, g.m2, body + BuildText(g.build));
    RestParts(g.m1, g.m2, body, g.build);
    var run := DigitRun(body);
    RunCovers(g.m3, PreText(dash, g.pre));
    TailComplete(body, run, g.m3, dash, g.pre);
  }

  lemma {:induction false} RunCovers(a: string, rest: string)
    requires AllDigits(a)
    ensures DigitRun(a + rest) >= |a|
    decreases |a|
  {
    if a != "" {
      assert (a + rest)[1..] == a[1..] + rest;
      RunCovers(a[1..], rest);
    }
  }

  lemma {:induction false} SkipIs(s: string) returns (prefix: string)
    ensures s == prefix + SkipPrefix(s) && forall c :: c in prefix ==> PrefixChar(c)
    decreases |s|
  {
    if s != "" && PrefixChar(s[0]) {
      prefix := SkipIs(s[1..]);
      assert s == [s[0]] + s[1..];
      assert [s[0]] + (prefix + SkipPrefix(s)) == ([s[0]] + prefix) + SkipPrefix(s);
      prefix := [s[0]] + prefix;
    } else {
      prefix := "";
      assert s == "" + s;
    }
  }

  lemma PlusSplits(r: string, plus: nat)
    requires plus <= |r| && (plus < |r| ==> r[plus] == '+')
    ensures r == r[..plus] + BuildText(if plus < |r| then Some(r[plus + 1..]) else None)
  {
    if plus < |r| {
      assert r[plus..] == "+" + r[plus + 1..];
    }
  }

  lemma RestSound(m1: string, m2: string, r: string) returns (dash: bool)
    requires MatchRest(m1, m2, r).Some?
    ensures var g := MatchRest(m1, m2, r).value;
      && g.m1 == m1 && g.m2 == m2 && NumberText(g.m3)
      && r == (g.m3 + PreText(dash, g.pre)) + BuildText(g.build)
      && (g.pre.Some? ==> IdsOk(g.pre.value)) && (g.build.Some? ==> IdsOk(g.build.value))
  {
    hide IdsOk;
    var plus := FindPlus(r);
    var body := r[..plus];
    dash := TailSound(body, DigitRun(body));
    PlusSplits(r, plus);
  }

  /** The recogniser's groups are those of a match of the pattern. */
  lemma MatchIsSound(text: string) returns (prefix: string, dash: bool)
    requires Match(text).Some?
    ensures Matches(text, prefix, Match(text).value, dash)
  {
    hide DigitRun, IdsOk, SkipPrefix, HasHead, Head, AfterHead, MatchRest;
    prefix := SkipIs(text);
    var t := SkipPrefix(text);
    var u := AfterHead(t);
    HeadSplits(t);
    HeadSplits(u);
    dash := RestSound(Head(t), Head(u), AfterHead(u));
  }

  // ---------- Round trips ----------

  predicate TagOk(t: Tag) {
    match t
    case Text(s) => IdOk(s) && ParseI64(s) == None
    case Num(n) => MIN_I64 <= n <= MAX_I64
  }

  /** The versions that parsing can yield: numbers in range, identifiers that are no numbers, numbers in range as
      tags. */
  predicate Printable(v: Semver) {
    && 0 <= v.major <= MAX_I64 && 0 <= v.minor <= MAX_I64 && 0 <= v.bug <= MAX_I64
    && (forall t :: t in v.prerelease ==> TagOk(t))
    && (forall p :: p in v.build ==> IdOk(p))
  }

  lemma NumberParses(s: string)
    requires NumberText(s)
    ensures ParseI64(s).Some? ==> 0 <= ParseI64(s).value <= MAX_I64
  {
  }

  lemma ParsedTagsOk(pre: string)
    requires IdsOk(pre)
    ensures forall t :: t in ParseTags(Split(pre)) ==> TagOk(t)
  {
    var parts := Split(pre);
    forall t | t in ParseTags(parts) ensures TagOk(t) {
      var i :| 0 <= i < |parts| && ParseTags(parts)[i] == t;
      assert parts[i] in parts;
    }
  }

  /** Whatever parses is printable. */
  lemma ParseIsPrintable(s: string)
    requires Parse(s).Ok?
    ensures Printable(Parse(s).value)
  {
    hide Match, IdOk, ParseI64;
    var text := TrimEnd(TrimStart(s));
    var g := Match(text).value;
    var prefix, dash := MatchIsSound(text);
    NumberParses(g.m1);
    NumberParses(g.m2);
    NumberParses(g.m3);
    if g.pre.Some? {
      ParsedTagsOk(g.pre.value);
    }
  }

  lemma TagTextOk(t: Tag)
    requires TagOk(t)
    ensures IdOk(TagText(t)) && ParseTag(TagText(t)) == t
  {
    if t.Num? {
      IntRoundTrip(t.n);
    }
  }

  lemma JoinedIds(parts: seq<string>)
    requires parts != [] && forall p :: p in parts ==> IdOk(p)
    ensures Split(Join(parts)) == parts && IdsOk(Join(parts))
  {
    SplitJoin(parts);
  }

  /** The tags of a version, printed and parsed again. */
  lemma TagsRoundTrip(tags: seq<Tag>)
    requires tags != [] && forall t :: t in tags ==> TagOk(t)
    ensures IdsOk(Join(TagTexts(tags))) && ParseTags(Split(Join(TagTexts(tags)))) == tags
  {
    var texts := TagTexts(tags);
    forall i | 0 <= i < |tags| ensures IdOk(texts[i]) && ParseTag(texts[i]) == tags[i] {
      assert tags[i] in tags;
      TagTextOk(tags[i]);
    }
    JoinedIds(texts);
    assert ParseTags(texts) == tags;
  }

  lemma PrintedNumber(n: int)
    requires 0 <= n <= MAX_I64
    ensures NumberText(PrintInt(n)) && ParseI64(PrintInt(n)) == Some(n)
  {
    IntRoundTrip(n);
  }

  function PrintedPre(tags: seq<Tag>): Option<string> {
    if tags == [] then None else Some(Join(TagTexts(tags)))
  }

  function PrintedBuild(build: seq<string>): Option<string> {
    if build == [] then None else Some(Join(build))
  }

  /** A hyphen after the third number is always taken as one. */
  lemma TailAt(m3: string, pre: Option<string>)
    requires NumberText(m3) && (pre.Some? ==> IdsOk(pre.value))
    ensures var body := m3 + PreText(true, pre); MatchTail(body, DigitRun(body)) == Some((m3, pre))
  {
    var rest := PreText(true, pre);
    var body := m3 + rest;
    DigitRunAt(m3, rest);
    assert body[|m3|..] == rest && body[..|m3|] == m3;
    if pre.Some? {
      assert rest[1..] == pre.value;
    } else {
      assert body == m3;
    }
  }

  /** Printed text begins and ends with characters of numbers or identifiers, so that nothing is trimmed. */
  lemma NothingTrimmed(s: string)
    requires s != "" && !IsSpace(s[0]) && !IsSpace(s[|s| - 1])
    ensures TrimEnd(TrimStart(s)) == s
  {
  }

  lemma LastOfConcat(a: string, b: string)
    requires b != ""
    ensures (a + b)[|a + b| - 1] == b[|b| - 1]
  {
  }

  lemma LastIsNoSpace(m3: string, pre: Option<string>, build: Option<string>)
    requires NumberText(m3) && (pre.Some? ==> IdsOk(pre.value)) && (build.Some? ==> IdsOk(build.value))
    ensures var r := (m3 + PreText(true, pre)) + BuildText(build); r != "" && !IsSpace(r[|r| - 1])
  {
    if build.Some? {
      IdsNotEmpty(build.value);
      IdsChars(build.value);
    } else if pre.Some? {
      IdsNotEmpty(pre.value);
      IdsChars(pre.value);
    }
  }

  lemma MatchPrinted(m1: string, m2: string, m3: string, pre: Option<string>, build: Option<string>)
    requires NumberText(m1) && NumberText(m2) && NumberText(m3)
    requires (pre.Some? ==> IdsOk(pre.value)) && (build.Some? ==> IdsOk(build.value))
    ensures var s := m1 + "." + (m2 + "." + ((m3 + PreText(true, pre)) + BuildText(build)));
      TrimEnd(TrimStart(s)) == s && Match(s) == Some(Groups(m1, m2, m3, pre, build))
  {
    hide IdsOk, MatchRest, Match;
    var r := (m3 + PreText(true, pre)) + BuildText(build);
    var s := m1 + "." + (m2 + "." + r);
    LastIsNoSpace(m3, pre, build);
    LastOfConcat(m2 + ".", r);
    LastOfConcat(m1 + ".", m2 + "." + r);
    assert s[0] == m1[0];
    NothingTrimmed(s);
    assert "" + s == s;
    MatchParts("", m1, m2, r);
    NoPlus(m3, true, pre);
    RestParts(m1, m2, m3 + PreText(true, pre), build);
    TailAt(m3, pre);
  }

  /** A version survives printing and parsing if and only if it is printable. */
  lemma PrintThenParse(v: Semver)
    ensures Parse(Print(v)) == Ok(v) <==> Printable(v)
  {
    if Parse(Print(v)) == Ok(v) {
      ParseIsPrintable(Print(v));
    }
    if Printable(v) {
      PrintableParses(v);
    }
  }

  lemma PrintableParses(v: Semver)
    requires Printable(v)
    ensures Parse(Print(v)) == Ok(v)
  {
    hide IdOk, TagOk, ParseI64, Match, IdsOk;
    PrintedNumber(v.major);
    PrintedNumber(v.minor);
    PrintedNumber(v.bug);
    var pre, build := PrintedPre(v.prerelease), PrintedBuild(v.build);
    if v.prerelease != [] {
      TagsRoundTrip(v.prerelease);
    }
    if v.build != [] {
      JoinedIds(v.build);
    }
    MatchPrinted(PrintInt(v.major), PrintInt(v.minor), PrintInt(v.bug), pre, build);
  }

  /** Parsing, printing and parsing again gives the same version, for every text that parses: with leading zeros, a
      missing hyphen, tags that are negative integers, or numeric tags that are out of range. */
  lemma ParsePrintParse(s: string)
    requires Parse(s).Ok?
    ensures Parse(Print(Parse(s).value)) == Parse(s)
  {
    ParseIsPrintable(s);
    PrintableParses(Parse(s).value);
  }

  /** The third number may give a digit back: `1.2.34.5` reads as `1.2.3-4.5`. */
  lemma DigitsGivenBack()
    ensures MatchTail("34.5", 2) == Some(("3", Some("4.5")))
  {
    var body := "34.5";
    SplitDot("", "5");
    SplitDot("4", "5");
    SplitPlain("5");
    assert body[2..] == "" + "." + "5" && body[1..] == "4" + "." + "5" && body[..1] == "3";
    assert Split(body[2..]) == [""] + ["5"] && Split(body[1..]) == ["4"] + ["5"];
    assert !IdsOk(body[2..]) by {
      assert Split(body[2..])[0] in Split(body[2..]);
    }
    assert IdsOk(body[1..]);
    assert MatchTail(body, 1) == Some((body[..1], Some(body[1..])));
  }

  // ---------- What is read ----------

  /** Three numbers are read in the order major, minor, bug; the text is refused if one of them is out of range. */
  lemma NumbersInOrder(m1: string, m2: string, m3: string)
    requires NumberText(m1) && NumberText(m2) && NumberText(m3)
    ensures Parse(m1 + "." + (m2 + "." + m3))
         == if Value(m1) <= MAX_I64 && Value(m2) <= MAX_I64 && Value(m3) <= MAX_I64
            then Ok(Semver(Value(m1), Value(m2), Value(m3), [], [])) else Err(IntOutOfRange)
  {
    hide Match, Value;
    MatchPrinted(m1, m2, m3, None, None);
    assert (m3 + PreText(true, None)) + BuildText(None) == m3;
    ParsesDigits(m1);
    ParsesDigits(m2);
    ParsesDigits(m3);
  }

  /** A digit more is ten times the number and the digit. */
  lemma DigitsAre(s: string, c: char)
    requires AllDigits(s) && IsDigit(c)
    ensures AllDigits(s + [c]) && Value(s + [c]) == 10 * Value(s) + (c as int - '0' as int)
  {
    assert (s + [c])[..|s|] == s;
  }

  /** What is read of the parts of a text that matches. */
  lemma GroupsRead(s: string, g: Groups)
    requires Match(TrimEnd(TrimStart(s))) == Some(g)
    requires ParseI64(g.m1).Some? && ParseI64(g.m2).Some? && ParseI64(g.m3).Some? && g.pre.Some? && g.build.Some?
    ensures Parse(s).Ok? && Parse(s).value.prerelease == ParseTags(Split(g.pre.value))
    ensures Parse(s).value.build == Split(g.build.value)
  {
    hide Match, ParseI64, TrimEnd, TrimStart, Split;
  }

  /** Prerelease tags follow a hyphen, in order, and are numbers where they can be; builds follow a plus, as text. */
  lemma TagsInOrder(m1: string, m2: string, m3: string, tags: seq<string>, build: seq<string>)
    requires NumberText(m1) && NumberText(m2) && NumberText(m3)
    requires Value(m1) <= MAX_I64 && Value(m2) <= MAX_I64 && Value(m3) <= MAX_I64
    requires tags != [] && build != [] && forall t :: t in tags + build ==> IdOk(t)
    ensures var r := Parse(m1 + "." + (m2 + "." + ((m3 + ("-" + Join(tags))) + ("+" + Join(build)))));
      r.Ok? && r.value.build == build && |r.value.prerelease| == |tags|
      && forall i :: 0 <= i < |tags| ==>
        r.value.prerelease[i] == if ParseI64(tags[i]).Some? then Num(ParseI64(tags[i]).value) else Text(tags[i])
  {
    hide Match, Value, IdOk, Parse, TrimEnd, TrimStart, Split, Join, ParseI64, ParseTag;
    JoinedIds(tags);
    JoinedIds(build);
    MatchPrinted(m1, m2, m3, Some(Join(tags)), Some(Join(build)));
    ParsesDigits(m1);
    ParsesDigits(m2);
    ParsesDigits(m3);
    GroupsRead(m1 + "." + (m2 + "." + ((m3 + ("-" + Join(tags))) + ("+" + Join(build)))),
               Groups(m1, m2, m3, Some(Join(tags)), Some(Join(build))));
    forall i | 0 <= i < |tags| ensures ParseTag(tags[i])
      == if ParseI64(tags[i]).Some? then Num(ParseI64(tags[i]).value) else Text(tags[i])
    {
      TagIs(tags[i]);
    }
  }

  lemma TagIs(s: string)
    ensures ParseTag(s) == if ParseI64(s).Some? then Num(ParseI64(s).value) else Text(s)
  {
  }
}
