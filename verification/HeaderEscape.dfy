/** escapeHeaderValue (internal/dag/policy.go): percent signs of a header value are
    doubled, the caller's variables are substituted, and a fixed list of Envoy
    operators is let through, all by successive in-place replacements in one string. */
module HeaderEscape {
  import opened Text

  // ----- strings.ReplaceAll ------------------------------------------------------------

  function ReplaceAll(s: string, old_: string, new_: string): (t: string)
    requires old_ != ""
    decreases |s|
  {
    if s == "" then ""
    else if old_ <= s then new_ + ReplaceAll(s[|old_|..], old_, new_)
    else [s[0]] + ReplaceAll(s[1..], old_, new_)
  }

  predicate PercentFree(s: string)
  {
    forall i :: 0 <= i < |s| ==> s[i] != '%'
  }

  // ----- the regular expression %(%REQ\([\w-]+\)%)% ---------------------------------------

  predicate WordChar(c: char)
  {
    'a' <= c <= 'z' || 'A' <= c <= 'Z' || '0' <= c <= '9' || c == '_' || c == '-'
  }

  /** REQ(x) with x one or more of the characters \w and -. */
  predicate IsReq(name: string)
  {
    && |name| >= 6 && name[..4] == "REQ(" && name[|name| - 1] == ')'
    && forall i :: 4 <= i < |name| - 1 ==> WordChar(name[i])
  }

  /** The length of the longest percent-free start of s. */
  function PlainLength(s: string): (n: nat)
    ensures n <= |s| && PercentFree(s[..n]) && (n < |s| ==> s[n] == '%')
  {
    if s == "" || s[0] == '%' then 0 else 1 + PlainLength(s[1..])
  }

  type Names = string -> bool

  /** A match of %(%name%)% at the start of s, for a language of percent-free names: the
      name that it captures, which ends where the next percent sign is. */
  function MatchAt(s: string, names: Names): (m: Option<string>)
    ensures m.Some? ==> names(m.value) && "%%" + m.value + "%%" <= s
  {
    if !("%%" <= s) then None
    else
      var n := PlainLength(s[2..]);
      if names(s[2..][..n]) && "%%" <= s[2 + n..] then
        assert s == "%%" + s[2..][..n] + s[2 + n..];
        Some(s[2..][..n])
      else None
  }

  /** ReplaceAllString with that expression and the replacement $1: one of the two
      percent signs goes on either side of every leftmost match. */
  function Unwrap(s: string, names: Names): (t: string)
    decreases |s|
  {
    if s == "" then ""
    else
      var m := MatchAt(s, names);
      if m.Some? then "%" + m.value + "%" + Unwrap(s[|m.value| + 4..], names)
      else [s[0]] + Unwrap(s[1..], names)
  }

  // ----- what Envoy reads ---------------------------------------------------------------

  /** A value as Envoy reads it: plain characters, escaped percent signs, operators. */
  datatype Token = Plain(c: char) | Percent | Operator(name: string)

  predicate TokenOk(t: Token)
  {
    match t
    case Plain(c) => c != '%'
    case Percent => true
    case Operator(name) => name != "" && PercentFree(name)
  }

  ghost predicate TokensOk(ts: seq<Token>)
  {
    forall i :: 0 <= i < |ts| ==> TokenOk(ts[i])
  }

  function Written(t: Token): (s: string)
  {
    match t
    case Plain(c) => [c]
    case Percent => "%%"
    case Operator(name) => "%" + name + "%"
  }

  function Render(ts: seq<Token>): (s: string)
  {
    if ts == [] then "" else Written(ts[0]) + Render(ts[1..])
  }

  /** Reading left to right: a percent sign starts an escaped percent sign or an operator. */
  function Read(s: string): (ts: Option<seq<Token>>)
    decreases |s|
  {
    if s == "" then Some([])
    else if s[0] != '%' then ReadOn(Plain(s[0]), Read(s[1..]))
    else if "%%" <= s then ReadOn(Percent, Read(s[2..]))
    else
      var n := PlainLength(s[1..]);
      if n > 0 && 1 + n < |s| then ReadOn(Operator(s[1..1 + n]), Read(s[n + 2..])) else None
  }

  function ReadOn(t: Token, rest: Option<seq<Token>>): (ts: Option<seq<Token>>)
  {
    if rest.Some? then Some([t] + rest.value) else None
  }

  /** Text as tokens. */
  function Chars(s: string): (ts: seq<Token>)
    ensures |ts| == |s|
    ensures forall i :: 0 <= i < |s| ==> ts[i] == Plain(s[i])
  {
    seq(|s|, i requires 0 <= i < |s| => Plain(s[i]))
  }

  lemma {:induction false} RenderConcat(a: seq<Token>, b: seq<Token>)
    ensures Render(a + b) == Render(a) + Render(b)
  {
    if a == [] {
      assert a + b == b;
    } else {
      assert (a + b)[1..] == a[1..] + b;
      RenderConcat(a[1..], b);
    }
  }

  lemma {:induction false} RenderChars(s: string)
    ensures Render(Chars(s)) == s
  {
    if s != "" {
      assert Chars(s)[1..] == Chars(s[1..]);
      RenderChars(s[1..]);
    }
  }

  lemma {:induction false} PlainLengthOf(a: string, b: string)
    requires PercentFree(a) && b != "" && b[0] == '%'
    ensures PlainLength(a + b) == |a|
  {
    if a == "" {
      assert a + b == b;
    } else {
      assert (a + b)[1..] == a[1..] + b;
      PlainLengthOf(a[1..], b);
    }
  }

  lemma ReadOperator(name: string, rest: string)
    requires name != "" && PercentFree(name)
    ensures Read("%" + name + "%" + rest) == ReadOn(Operator(name), Read(rest))
  {
    var s := "%" + name + "%" + rest;
    assert s[0] == '%' && s[1] == name[0];
    assert s[1..] == name + ("%" + rest);
    PlainLengthOf(name, "%" + rest);
    assert s[1..1 + |name|] == name;
    assert s[|name| + 2..] == rest;
  }

  lemma ReadStep(t: Token, rest: string)
    requires TokenOk(t)
    ensures Read(Written(t) + rest) == ReadOn(t, Read(rest))
  {
    match t
    case Plain(c) =>
      assert ([c] + rest)[1..] == rest;
    case Percent =>
      assert ("%%" + rest)[2..] == rest;
    case Operator(name) =>
      ReadOperator(name, rest);
  }

  /** The reading is the only one: what is written is read back. */
  lemma {:induction false} ReadRender(ts: seq<Token>)
    requires TokensOk(ts)
    ensures Read(Render(ts)) == Some(ts)
  {
    if ts != [] {
      assert TokenOk(ts[0]) && ts == [ts[0]] + ts[1..];
      ReadRender(ts[1..]);
      ReadStep(ts[0], Render(ts[1..]));
    }
  }

  // ----- letting one family of operators through ----------------------------------------------

  /** The leading plain characters of a token list. */
  function PlainStart(ts: seq<Token>): (s: string)
    ensures |s| <= |ts| && ts[..|s|] == Chars(s)
    ensures |s| < |ts| ==> !ts[|s|].Plain?
  {
    if ts == [] || !ts[0].Plain? then ""
    else [ts[0].c] + PlainStart(ts[1..])
  }

  /** An escaped operator at the start of ts whose name is one of the given names. */
  predicate EscapedAt(ts: seq<Token>, names: Names)
  {
    && ts != [] && ts[0] == Percent
    && var n := PlainStart(ts[1..]);
       names(n) && 1 + |n| < |ts| && ts[1 + |n|] == Percent
  }

  /** On tokens: an escaped operator with one of the names becomes an operator. */
  function LetThrough(ts: seq<Token>, names: Names): (out: seq<Token>)
    decreases |ts|
  {
    if ts == [] then []
    else if EscapedAt(ts, names) then
      var n := PlainStart(ts[1..]);
      [Operator(n)] + LetThrough(ts[2 + |n|..], names)
    else [ts[0]] + LetThrough(ts[1..], names)
  }

  /** No operator in ts has one of the names yet. */
  ghost predicate NotYet(ts: seq<Token>, names: Names)
  {
    forall i :: 0 <= i < |ts| && ts[i].Operator? ==> !names(ts[i].name)
  }

  lemma {:induction false} UnwrapPlain(a: string, b: string, names: Names)
    requires PercentFree(a)
    ensures Unwrap(a + b, names) == a + Unwrap(b, names)
  {
    if a == "" {
      assert a + b == b;
    } else {
      assert (a + b)[1..] == a[1..] + b;
      assert MatchAt(a + b, names) == None;
      UnwrapPlain(a[1..], b, names);
    }
  }

  lemma PlainLengthCons(c: char, s: string, k: nat)
    requires c != '%' && k <= |s|
    ensures var t := [c] + s;
            PlainLength(t) == 1 + PlainLength(s) && t[..k + 1] == [c] + s[..k] && t[k + 1..] == s[k..]
  {
    assert ([c] + s)[1..] == s;
  }

  /** A text that does not start with a plain character. */
  lemma SpecialStartRender(ts: seq<Token>)
    requires TokensOk(ts) && ts != [] && !ts[0].Plain?
    ensures PlainLength(Render(ts)) == 0 && ("%%" <= Render(ts) <==> ts[0] == Percent)
  {
    assert TokenOk(ts[0]);
    if ts[0].Operator? {
      assert Render(ts)[1] == ts[0].name[0];
    }
  }

  /** Reading characters or tokens, the plain start is the same. */
  lemma {:induction false} PlainStartRender(ts: seq<Token>)
    requires TokensOk(ts)
    ensures var n, s := PlainStart(ts), Render(ts);
            && PlainLength(s) == |n| && s[..|n|] == n && s[|n|..] == Render(ts[|n|..])
            && ("%%" <= s[|n|..] <==> |n| < |ts| && ts[|n|] == Percent)
  {
    if ts == [] {
    } else if ts[0].Plain? {
      var rest := ts[1..];
      var n := PlainStart(rest);
      PlainStartRender(rest);
      assert TokenOk(ts[0]);
      PlainLengthCons(ts[0].c, Render(rest), |n|);
      assert ts[|n| + 1..] == rest[|n|..];
    } else {
      SpecialStartRender(ts);
      assert Render(ts)[0..] == Render(ts) && ts[0..] == ts;
    }
  }

  /** A match in the text is an escaped operator in the tokens. */
  lemma MatchIsEscaped(ts: seq<Token>, names: Names)
    requires TokensOk(ts) && ts != [] && ts[0] == Percent
    ensures MatchAt(Render(ts), names) == if EscapedAt(ts, names) then Some(PlainStart(ts[1..])) else None
  {
    PlainStartRender(ts[1..]);
    assert Render(ts)[2..] == Render(ts[1..]);
    var n := PlainStart(ts[1..]);
    assert Render(ts)[2 + |n|..] == Render(ts)[2..][|n|..];
  }

  lemma NoMatchBeforePercent(rest: string, names: Names)
    requires !names("")
    ensures MatchAt("%" + ("%%" + rest), names) == None
  {
    var s := "%" + ("%%" + rest);
    assert s[2..] == "%" + rest;
    assert s[2..][..0] == "";
  }

  lemma NoMatchBeforeOperator(name: string, rest: string, names: Names)
    requires PercentFree(name) && !names(name)
    ensures MatchAt("%" + ("%" + name + "%" + rest), names) == None
  {
    var s := "%" + ("%" + name + "%" + rest);
    assert s[2..] == name + ("%" + rest);
    PlainLengthOf(name, "%" + rest);
    assert s[2..][..|name|] == name;
  }

  /** There is no match that starts in the middle of a token. */
  lemma NoMatchInside(ts: seq<Token>, names: Names)
    requires TokensOk(ts) && NotYet(ts, names) && !names("")
    ensures MatchAt("%" + Render(ts), names) == None
  {
    if ts != [] {
      assert TokenOk(ts[0]);
      match ts[0]
      case Plain(c) =>
        assert ("%" + Render(ts))[1] == c;
      case Percent =>
        NoMatchBeforePercent(Render(ts[1..]), names);
      case Operator(name) =>
        NoMatchBeforeOperator(name, Render(ts[1..]), names);
    }
  }

  /** One step of the scan, when nothing matches here. */
  lemma UnwrapSkip(c: char, rest: string, names: Names)
    requires MatchAt([c] + rest, names) == None
    ensures Unwrap([c] + rest, names) == [c] + Unwrap(rest, names)
  {
    assert ([c] + rest)[1..] == rest;
  }

  lemma UnwrapPercent(rest: string, names: Names)
    requires MatchAt("%%" + rest, names) == None && MatchAt("%" + rest, names) == None
    ensures Unwrap("%%" + rest, names) == "%%" + Unwrap(rest, names)
  {
    assert "%%" + rest == "%" + ("%" + rest);
    UnwrapSkip('%', "%" + rest, names);
    UnwrapSkip('%', rest, names);
    TwoPercents(Unwrap(rest, names));
  }

  lemma TwoPercents(s: string)
    ensures "%" + ("%" + s) == "%%" + s
  {
  }

  lemma UnwrapOperator(name: string, rest: string, names: Names)
    requires name != "" && PercentFree(name) && MatchAt("%" + rest, names) == None
    ensures Unwrap("%" + name + "%" + rest, names) == "%" + name + "%" + Unwrap(rest, names)
  {
    var inner := name + ("%" + rest);
    assert "%" + name + "%" + rest == "%" + inner;
    assert MatchAt("%" + inner, names) == None by {
      assert ("%" + inner)[1] == name[0] != '%';
    }
    UnwrapSkip('%', inner, names);
    UnwrapPlain(name, "%" + rest, names);
    UnwrapSkip('%', rest, names);
    Reassociate(name, Unwrap(rest, names));
  }

  lemma Reassociate(name: string, rest: string)
    ensures "%" + (name + ("%" + rest)) == "%" + name + "%" + rest
  {
  }

  /** The scan past a token that stays. */
  lemma UnwrapKeeps(t: Token, rest: string, names: Names)
    requires TokenOk(t)
    requires MatchAt(Written(t) + rest, names) == None
    requires MatchAt("%" + rest, names) == None
    ensures Unwrap(Written(t) + rest, names) == Written(t) + Unwrap(rest, names)
  {
    match t
    case Plain(c) => UnwrapSkip(c, rest, names);
    case Percent => UnwrapPercent(rest, names);
    case Operator(name) => UnwrapOperator(name, rest, names);
  }

  lemma RenderEscaped(ts: seq<Token>, names: Names)
    requires EscapedAt(ts, names)
    ensures var n := PlainStart(ts[1..]);
            Render(ts) == "%%" + n + "%%" + Render(ts[2 + |n|..])
  {
    EscapedParts(ts, names);
    var n := PlainStart(ts[1..]);
    var after := ts[2 + |n|..];
    RenderConcat([Percent] + Chars(n) + [Percent], after);
    RenderConcat([Percent] + Chars(n), [Percent]);
    RenderConcat([Percent], Chars(n));
    RenderChars(n);
    assert Render([Percent]) == "%%";
  }

  /** The scan over an escaped operator. */
  lemma UnwrapEscaped(ts: seq<Token>, names: Names)
    requires TokensOk(ts) && EscapedAt(ts, names)
    ensures var n := PlainStart(ts[1..]);
            Unwrap(Render(ts), names) == "%" + n + "%" + Unwrap(Render(ts[2 + |n|..]), names)
  {
    MatchIsEscaped(ts, names);
    RenderEscaped(ts, names);
    var n := PlainStart(ts[1..]);
    var s, rest := Render(ts), Render(ts[2 + |n|..]);
    assert s[|n| + 4..] == rest;
  }

  /** The replacement in the text is the replacement on tokens, as long as no operator
      with one of the names is there yet. */
  lemma {:induction false} UnwrapIsLetThrough(ts: seq<Token>, names: Names)
    requires TokensOk(ts) && NotYet(ts, names) && !names("")
    ensures Unwrap(Render(ts), names) == Render(LetThrough(ts, names))
    decreases |ts|
  {
    if ts != [] {
      assert TokenOk(ts[0]);
      if EscapedAt(ts, names) {
        var n := PlainStart(ts[1..]);
        UnwrapEscaped(ts, names);
        UnwrapIsLetThrough(ts[2 + |n|..], names);
      } else {
        NoMatchInside(ts[1..], names);
        NoMatchHere(ts, names);
        UnwrapKeeps(ts[0], Render(ts[1..]), names);
        UnwrapIsLetThrough(ts[1..], names);
      }
    }
  }

  lemma NoMatchHere(ts: seq<Token>, names: Names)
    requires TokensOk(ts) && ts != [] && !EscapedAt(ts, names)
    ensures MatchAt(Render(ts), names) == None
  {
    assert TokenOk(ts[0]);
    match ts[0]
    case Plain(c) =>
    case Percent =>
      MatchIsEscaped(ts, names);
    case Operator(name) =>
      assert Render(ts)[1] == name[0];
  }

  // ----- what letting through keeps -------------------------------------------------------------

  /** The text that a header value stands for. */
  function Meaning(ts: seq<Token>): (s: string)
  {
    if ts == [] then ""
    else (match ts[0]
          case Plain(c) => [c]
          case Percent => "%"
          case Operator(name) => "%" + name + "%") + Meaning(ts[1..])
  }

  lemma {:induction false} MeaningConcat(a: seq<Token>, b: seq<Token>)
    ensures Meaning(a + b) == Meaning(a) + Meaning(b)
  {
    if a == [] {
      assert a + b == b;
    } else {
      assert (a + b)[1..] == a[1..] + b;
      MeaningConcat(a[1..], b);
    }
  }

  lemma {:induction false} MeaningChars(s: string)
    ensures Meaning(Chars(s)) == s
  {
    if s != "" {
      assert Chars(s)[1..] == Chars(s[1..]);
      MeaningChars(s[1..]);
    }
  }

  /** The tokens of an escaped operator, laid out. */
  lemma EscapedParts(ts: seq<Token>, names: Names)
    requires EscapedAt(ts, names)
    ensures var n := PlainStart(ts[1..]);
            ts == [Percent] + Chars(n) + [Percent] + ts[2 + |n|..]
  {
    var n := PlainStart(ts[1..]);
    assert ts[1..][..|n|] == Chars(n);
  }

  lemma {:induction false} LetThroughKeepsMeaning(ts: seq<Token>, names: Names)
    ensures Meaning(LetThrough(ts, names)) == Meaning(ts)
    decreases |ts|
  {
    if ts != [] {
      if EscapedAt(ts, names) {
        EscapedParts(ts, names);
        var n := PlainStart(ts[1..]);
        var after := ts[2 + |n|..];
        LetThroughKeepsMeaning(after, names);
        MeaningConcat([Percent] + Chars(n) + [Percent], after);
        MeaningConcat([Percent] + Chars(n), [Percent]);
        MeaningConcat([Percent], Chars(n));
        MeaningChars(n);
        assert Meaning([Percent]) == "%";
      } else {
        LetThroughKeepsMeaning(ts[1..], names);
      }
    }
  }

  /** Only operators with the names are added. */
  lemma {:induction false} LetThroughAdds(ts: seq<Token>, names: Names)
    requires TokensOk(ts) && !names("")
    ensures TokensOk(LetThrough(ts, names))
    ensures forall t :: t in LetThrough(ts, names) && t.Operator? ==> t in ts || names(t.name)
    decreases |ts|
  {
    if ts != [] {
      if EscapedAt(ts, names) {
        EscapedParts(ts, names);
        var n := PlainStart(ts[1..]);
        forall i | 0 <= i < |n|
          ensures n[i] != '%'
        {
          assert ts[1 + i] == Plain(n[i]);
          assert TokenOk(ts[1 + i]);
        }
        LetThroughAdds(ts[2 + |n|..], names);
      } else {
        LetThroughAdds(ts[1..], names);
      }
    }
  }

  ghost predicate NoneEscaped(ts: seq<Token>, names: Names)
  {
    forall i :: 0 <= i <= |ts| ==> !EscapedAt(ts[i..], names)
  }

  /** Letting operators through never creates an escaped operator of any kind. */
  lemma {:induction false} LetThroughStart(ts: seq<Token>, names: Names)
    ensures var out := LetThrough(ts, names);
            var n := PlainStart(ts);
            && PlainStart(out) == n
            && (|n| < |out| && out[|n|] == Percent ==> |n| < |ts| && ts[|n|] == Percent)
    decreases |ts|
  {
    if ts != [] && ts[0].Plain? {
      LetThroughStart(ts[1..], names);
      var n := PlainStart(ts);
      assert LetThrough(ts, names)[1..] == LetThrough(ts[1..], names);
    }
  }

  lemma NoneEscapedTail(ts: seq<Token>, k: nat, others: Names)
    requires NoneEscaped(ts, others) && k <= |ts|
    ensures NoneEscaped(ts[k..], others)
  {
    forall i | 0 <= i <= |ts[k..]|
      ensures !EscapedAt(ts[k..][i..], others)
    {
      assert ts[k..][i..] == ts[k + i..];
    }
  }

  lemma NoneEscapedCons(t: Token, rest: seq<Token>, others: Names)
    requires NoneEscaped(rest, others) && !EscapedAt([t] + rest, others)
    ensures NoneEscaped([t] + rest, others)
  {
    var all := [t] + rest;
    forall i | 0 <= i <= |all|
      ensures !EscapedAt(all[i..], others)
    {
      if i == 0 {
        assert all[0..] == all;
      } else {
        assert all[i..] == rest[i - 1..];
      }
    }
  }

  lemma {:induction false} LetThroughKeepsNoneEscaped(ts: seq<Token>, names: Names, others: Names)
    requires NoneEscaped(ts, others)
    ensures NoneEscaped(LetThrough(ts, names), others)
    decreases |ts|
  {
    if ts != [] {
      if EscapedAt(ts, names) {
        var n := PlainStart(ts[1..]);
        NoneEscapedTail(ts, 2 + |n|, others);
        LetThroughKeepsNoneEscaped(ts[2 + |n|..], names, others);
        NoneEscapedCons(Operator(n), LetThrough(ts[2 + |n|..], names), others);
      } else {
        NoneEscapedTail(ts, 1, others);
        LetThroughKeepsNoneEscaped(ts[1..], names, others);
        assert ts[0..] == ts;
        KeptHead(ts, names, others);
        NoneEscapedCons(ts[0], LetThrough(ts[1..], names), others);
      }
    }
  }

  /** A token that stays in front starts an escaped operator only if it did before. */
  lemma KeptHead(ts: seq<Token>, names: Names, others: Names)
    requires ts != [] && !EscapedAt(ts, others)
    ensures !EscapedAt([ts[0]] + LetThrough(ts[1..], names), others)
  {
    var out := LetThrough(ts[1..], names);
    LetThroughStart(ts[1..], names);
    assert ([ts[0]] + out)[1..] == out;
  }

  /** After the replacement no operator with one of the names is left escaped. */
  lemma {:induction false} LetThroughLeavesNone(ts: seq<Token>, names: Names)
    ensures NoneEscaped(LetThrough(ts, names), names)
    decreases |ts|
  {
    if ts != [] {
      if EscapedAt(ts, names) {
        var n := PlainStart(ts[1..]);
        LetThroughLeavesNone(ts[2 + |n|..], names);
        NoneEscapedCons(Operator(n), LetThrough(ts[2 + |n|..], names), names);
      } else {
        LetThroughLeavesNone(ts[1..], names);
        KeptHead(ts, names, names);
        NoneEscapedCons(ts[0], LetThrough(ts[1..], names), names);
      }
    }
  }

  // ----- strings.ReplaceAll with one operator ------------------------------------------------------

  lemma MatchIsPrefix(s: string, name: string)
    requires PercentFree(name)
    ensures MatchAt(s, n => n == name) == if "%%" + name + "%%" <= s then Some(name) else None
  {
    var whole := "%%" + name + "%%";
    if whole <= s {
      var rest := s[|whole|..];
      assert s == whole + rest;
      assert s[2..] == name + ("%%" + rest);
      PlainLengthOf(name, "%%" + rest);
      assert s[2..][..|name|] == name;
      assert s[2 + |name|..] == "%%" + rest;
    }
  }

  lemma {:induction false} ReplaceAllIsUnwrap(s: string, name: string)
    requires PercentFree(name)
    ensures ReplaceAll(s, "%%" + name + "%%", "%" + name + "%") == Unwrap(s, n => n == name)
    decreases |s|
  {
    if s != "" {
      MatchIsPrefix(s, name);
      if "%%" + name + "%%" <= s {
        ReplaceAllIsUnwrap(s[|name| + 4..], name);
      } else {
        ReplaceAllIsUnwrap(s[1..], name);
      }
    }
  }

  // ----- doubling and substitution --------------------------------------------------------------------

  /** The tokens of a value whose percent signs are all literal. */
  function Literal(v: string): (ts: seq<Token>)
    ensures |ts| == |v|
    ensures forall i :: 0 <= i < |v| ==> ts[i] == if v[i] == '%' then Percent else Plain(v[i])
  {
    seq(|v|, i requires 0 <= i < |v| => if v[i] == '%' then Percent else Plain(v[i]))
  }

  function Double(v: string): (s: string)
  {
    if v == "" then "" else (if v[0] == '%' then "%%" else [v[0]]) + Double(v[1..])
  }

  lemma {:induction false} DoubleIsLiteral(v: string)
    ensures Render(Literal(v)) == Double(v) && Meaning(Literal(v)) == v
  {
    if v != "" {
      assert Literal(v)[1..] == Literal(v[1..]);
      DoubleIsLiteral(v[1..]);
    }
  }

  lemma {:induction false} ReplacePercent(v: string)
    ensures ReplaceAll(v, "%", "%%") == Double(v)
  {
    if v != "" {
      ReplacePercent(v[1..]);
    }
  }

  lemma {:induction false} DoubleConcat(a: string, b: string)
    ensures Double(a + b) == Double(a) + Double(b)
  {
    if a == "" {
      assert a + b == b;
    } else {
      assert (a + b)[1..] == a[1..] + b;
      DoubleConcat(a[1..], b);
    }
  }

  lemma {:induction false} DoublePlain(a: string)
    requires PercentFree(a)
    ensures Double(a) == a
  {
    if a != "" {
      DoublePlain(a[1..]);
    }
  }

  lemma PrefixAfter(x: string, a: string, b: string)
    ensures x + a <= x + b <==> a <= b
  {
    if a <= b {
      assert (x + b)[..|x + a|] == x + b[..|a|];
    }
    if x + a <= x + b {
      assert b[..|a|] == (x + b)[..|x + a|][|x|..];
      assert a == (x + a)[|x|..];
    }
  }

  /** A variable followed by a percent sign, before and after doubling. */
  lemma {:induction false} DoublePrefix(a: string, w: string)
    requires PercentFree(a)
    ensures a + "%%" <= Double(w) <==> a + "%" <= w
  {
    if a == "" {
      assert a + "%%" == "%%" && a + "%" == "%";
      if w != "" && w[0] == '%' {
        assert Double(w)[..2] == "%%" && w[..1] == "%";
      } else if w != "" {
        assert Double(w)[0] == w[0];
      }
    } else if w != "" {
      DoublePrefix(a[1..], w[1..]);
      if w[0] == a[0] {
        assert Double(w) == [a[0]] + Double(w[1..]) && w == [a[0]] + w[1..];
        assert a + "%%" == [a[0]] + (a[1..] + "%%");
        assert a + "%" == [a[0]] + (a[1..] + "%");
        PrefixAfter([a[0]], a[1..] + "%%", Double(w[1..]));
        PrefixAfter([a[0]], a[1..] + "%", w[1..]);
      } else {
        assert Double(w)[0] == w[0] != (a + "%%")[0];
        assert (a + "%")[0] == a[0];
      }
    }
  }

  lemma NoVariableInside(name: string, v: string)
    requires name != "" && PercentFree(name)
    ensures !("%%" + name + "%%" <= "%" + Double(v))
  {
    var long, s := "%%" + name + "%%", "%" + Double(v);
    assert long[1] == '%' && long[2] == name[0];
    if v == "" {
      assert |s| == 1;
    } else if v[0] == '%' {
      assert s[2] == '%';
    } else {
      assert s[1] == v[0];
    }
  }

  /** Substituting in the doubled value is doubling the substituted value. */
  lemma {:induction false} SubstituteDoubled(v: string, name: string, val: string)
    requires name != "" && PercentFree(name) && PercentFree(val)
    ensures ReplaceAll(Double(v), "%%" + name + "%%", val) == Double(ReplaceAll(v, "%" + name + "%", val))
    decreases |v|
  {
    var short, long := "%" + name + "%", "%%" + name + "%%";
    if v != "" {
      if v[0] != '%' {
        SubstituteDoubled(v[1..], name, val);
        assert Double(v)[1..] == Double(v[1..]);
      } else {
        SubstitutePercent(v, name, val);
        if short <= v {
          SubstituteDoubled(v[|short|..], name, val);
          DoublePlain(val);
          DoubleConcat(val, ReplaceAll(v[|short|..], short, val));
        } else {
          SubstituteDoubled(v[1..], name, val);
        }
      }
    }
  }

  lemma VariableHere(v: string, name: string)
    requires PercentFree(name) && v != "" && v[0] == '%'
    ensures "%%" + name + "%%" <= Double(v) <==> "%" + name + "%" <= v
  {
    var d := Double(v[1..]);
    DoublePrefix(name, v[1..]);
    assert Double(v) == "%%" + d && v == "%" + v[1..];
    assert "%%" + name + "%%" == "%%" + (name + "%%") && "%" + name + "%" == "%" + (name + "%");
    PrefixAfter("%%", name + "%%", d);
    PrefixAfter("%", name + "%", v[1..]);
  }

  lemma DropVariable(v: string, name: string)
    requires PercentFree(name) && "%" + name + "%" <= v
    ensures var short, long := "%" + name + "%", "%%" + name + "%%";
            long <= Double(v) && Double(v)[|long|..] == Double(v[|short|..])
  {
    var short, long := "%" + name + "%", "%%" + name + "%%";
    var rest := v[|short|..];
    assert v == short + rest;
    DoubleConcat(short, rest);
    DoubleOf(name);
  }

  lemma SubstitutePercent(v: string, name: string, val: string)
    requires name != "" && PercentFree(name) && v != "" && v[0] == '%'
    ensures var short, long := "%" + name + "%", "%%" + name + "%%";
            ReplaceAll(Double(v), long, val) ==
            if short <= v then val + ReplaceAll(Double(v[|short|..]), long, val)
            else "%%" + ReplaceAll(Double(v[1..]), long, val)
  {
    var d := Double(v[1..]);
    assert Double(v) == "%%" + d;
    VariableHere(v, name);
    if "%" + name + "%" <= v {
      DropVariable(v, name);
    } else {
      NoVariableInside(name, v[1..]);
      assert Double(v)[1..] == "%" + d;
      assert ("%" + d)[1..] == d;
    }
  }

  lemma DoubleOf(name: string)
    requires PercentFree(name)
    ensures Double("%" + name + "%") == "%%" + name + "%%"
  {
    DoubleConcat("%" + name, "%");
    DoubleConcat("%", name);
    DoublePlain(name);
    assert Double("%") == "%%";
  }

  // ----- the code -------------------------------------------------------------------------------------

  const ENVOY_OPERATORS: seq<string> := [
    "DOWNSTREAM_REMOTE_ADDRESS",
    "DOWNSTREAM_REMOTE_ADDRESS_WITHOUT_PORT",
    "DOWNSTREAM_LOCAL_ADDRESS",
    "DOWNSTREAM_LOCAL_ADDRESS_WITHOUT_PORT",
    "DOWNSTREAM_LOCAL_PORT",
    "DOWNSTREAM_LOCAL_URI_SAN",
    "DOWNSTREAM_PEER_URI_SAN",
    "DOWNSTREAM_LOCAL_SUBJECT",
    "DOWNSTREAM_PEER_SUBJECT",
    "DOWNSTREAM_PEER_ISSUER",
    "DOWNSTREAM_TLS_SESSION_ID",
    "DOWNSTREAM_TLS_CIPHER",
    "DOWNSTREAM_TLS_VERSION",
    "DOWNSTREAM_PEER_FINGERPRINT_256",
    "DOWNSTREAM_PEER_FINGERPRINT_1",
    "DOWNSTREAM_PEER_SERIAL",
    "DOWNSTREAM_PEER_CERT",
    "DOWNSTREAM_PEER_CERT_V_START",
    "DOWNSTREAM_PEER_CERT_V_END",
    "HOSTNAME",
    "PROTOCOL",
    "UPSTREAM_REMOTE_ADDRESS",
    "RESPONSE_FLAGS",
    "RESPONSE_CODE_DETAILS"]

  lemma OperatorsDiffer(i: nat, j: nat)
    requires i < j < |ENVOY_OPERATORS|
    ensures ENVOY_OPERATORS[i] != ENVOY_OPERATORS[j]
  {
  }

  lemma OperatorsArePlain0(i: nat)
    requires 0 <= i < 6
    ensures PercentFree(ENVOY_OPERATORS[i])
  {
  }

  lemma OperatorsArePlain1(i: nat)
    requires 6 <= i < 12
    ensures PercentFree(ENVOY_OPERATORS[i])
  {
  }

  lemma OperatorsArePlain2(i: nat)
    requires 12 <= i < 18
    ensures PercentFree(ENVOY_OPERATORS[i])
  {
  }

  lemma OperatorsArePlain3(i: nat)
    requires 18 <= i < 24
    ensures PercentFree(ENVOY_OPERATORS[i])
  {
  }

  lemma OperatorsArePlain(i: nat)
    requires i < |ENVOY_OPERATORS|
    ensures PercentFree(ENVOY_OPERATORS[i]) && ENVOY_OPERATORS[i] != "" && !IsReq(ENVOY_OPERATORS[i])
  {
    if i < 6 {
      OperatorsArePlain0(i);
    } else if i < 12 {
      OperatorsArePlain1(i);
    } else if i < 18 {
      OperatorsArePlain2(i);
    } else {
      OperatorsArePlain3(i);
    }
  }

  predicate Allowed(name: string)
  {
    name in ENVOY_OPERATORS || IsReq(name)
  }

  /** The value with the variables of `order` substituted one after the other. */
  ghost function Substituted(v: string, vars: map<string, string>, order: seq<string>): (s: string)
    requires forall k :: k in order ==> k in vars
  {
    if order == [] then v
    else
      var n := |order| - 1;
      ReplaceAll(Substituted(v, vars, order[..n]), "%" + order[n] + "%", vars[order[n]])
  }

  /** The loop over the variables, on a value that is escaped already. */
  ghost function Replaced(escaped: string, vars: map<string, string>, order: seq<string>): (s: string)
    requires forall k :: k in order ==> k in vars
  {
    if order == [] then escaped
    else
      var n := |order| - 1;
      ReplaceAll(Replaced(escaped, vars, order[..n]), "%%" + order[n] + "%%", vars[order[n]])
  }

  /** The loop over the first k operators. */
  ghost function OperatorsThrough(escaped: string, k: nat): (s: string)
    requires k <= |ENVOY_OPERATORS|
  {
    if k == 0 then escaped
    else
      var name := ENVOY_OPERATORS[k - 1];
      ReplaceAll(OperatorsThrough(escaped, k - 1), "%%" + name + "%%", "%" + name + "%")
  }

  /** escapeHeaderValue, for an order in which the map yields the variables. */
  ghost function Escaped(value: string, vars: map<string, string>, order: seq<string>): (s: string)
    requires forall k :: k in order ==> k in vars
  {
    if '%' !in value then value
    else Unwrap(OperatorsThrough(Replaced(Double(value), vars, order), |ENVOY_OPERATORS|), IsReq)
  }

  ghost predicate Enumerates(order: seq<string>, keys: set<string>)
  {
    && (forall k :: k in order <==> k in keys)
    && (forall i, j :: 0 <= i < j < |order| ==> order[i] != order[j])
  }

  /** The variables of the caller: plain names and plain values. */
  predicate PlainVariables(vars: map<string, string>)
  {
    forall k :: k in vars ==> k != "" && PercentFree(k) && PercentFree(vars[k])
  }

  /** The loop over the caller's variables, in the order in which the map yields them. */
  method SubstituteVariables(value: string, vars: map<string, string>)
    returns (escapedValue: string, ghost order: seq<string>)
    ensures Enumerates(order, vars.Keys)
    ensures escapedValue == Replaced(Double(value), vars, order)
    ensures PlainVariables(vars) ==> escapedValue == Double(Substituted(value, vars, order))
  {
    escapedValue := ReplaceAll(value, "%", "%%");
    ReplacePercent(value);
    order := [];
    var todo := vars.Keys;
    while todo != {}
      invariant todo <= vars.Keys
      invariant Enumerates(order, vars.Keys - todo)
      invariant escapedValue == Replaced(Double(value), vars, order)
      invariant PlainVariables(vars) ==> escapedValue == Double(Substituted(value, vars, order))
      decreases todo
    {
      var name :| name in todo;
      if PlainVariables(vars) {
        SubstituteDoubled(Substituted(value, vars, order), name, vars[name]);
      }
      assert (order + [name])[..|order|] == order;
      escapedValue := ReplaceAll(escapedValue, "%%" + name + "%%", vars[name]);
      order := order + [name];
      todo := todo - {name};
    }
  }

  /** What holds between passes: the value reads as ts, its operators are among the
      names already let through, and none of those names is left escaped. */
  ghost predicate Passed(ts: seq<Token>, done: Names)
  {
    && TokensOk(ts)
    && (forall t :: t in ts && t.Operator? ==> done(t.name))
    && NoneEscaped(ts, done)
  }

  /** One pass adds one family of names. */
  lemma PassOne(ts: seq<Token>, done: Names, names: Names, both: Names)
    requires Passed(ts, done) && !names("")
    requires forall n :: !(done(n) && names(n))
    requires forall n :: both(n) <==> done(n) || names(n)
    ensures Unwrap(Render(ts), names) == Render(LetThrough(ts, names))
    ensures Passed(LetThrough(ts, names), both)
    ensures Meaning(LetThrough(ts, names)) == Meaning(ts)
  {
    forall i | 0 <= i < |ts| && ts[i].Operator?
      ensures !names(ts[i].name)
    {
      assert ts[i] in ts;
    }
    UnwrapIsLetThrough(ts, names);
    LetThroughKeepsMeaning(ts, names);
    LetThroughAdds(ts, names);
    LetThroughLeavesNone(ts, names);
    LetThroughKeepsNoneEscaped(ts, names, done);
  }

  function FirstOperators(k: nat): (names: Names)
    requires k <= |ENVOY_OPERATORS|
  {
    n => n in ENVOY_OPERATORS[..k]
  }

  lemma NextOperatorIsNew(k: nat)
    requires k < |ENVOY_OPERATORS|
    ensures ENVOY_OPERATORS[k] !in ENVOY_OPERATORS[..k]
  {
    forall i | 0 <= i < k
      ensures ENVOY_OPERATORS[..k][i] != ENVOY_OPERATORS[k]
    {
      OperatorsDiffer(i, k);
    }
  }

  lemma LiteralPassed(v: string)
    ensures Passed(Literal(v), FirstOperators(0))
  {
  }

  /** The loop over the operators that Envoy knows by name. */
  method LetOperatorsThrough(value: string, ghost v: string) returns (escapedValue: string, ghost ts: seq<Token>)
    ensures escapedValue == OperatorsThrough(value, |ENVOY_OPERATORS|)
    ensures Meaning(ts) == v && Passed(ts, FirstOperators(|ENVOY_OPERATORS|))
    ensures value == Double(v) ==> escapedValue == Render(ts)
    ensures value == Double(v) ==> Read(escapedValue).Some? && Meaning(Read(escapedValue).value) == v
  {
    escapedValue := value;
    ts := Literal(v);
    DoubleIsLiteral(v);
    LiteralPassed(v);
    for k := 0 to |ENVOY_OPERATORS|
      invariant escapedValue == OperatorsThrough(value, k)
      invariant Meaning(ts) == v && Passed(ts, FirstOperators(k))
      invariant value == Double(v) ==> escapedValue == Render(ts)
    {
      var envoyVar := ENVOY_OPERATORS[k];
      OperatorsArePlain(k);
      NextOperatorIsNew(k);
      ReplaceAllIsUnwrap(escapedValue, envoyVar);
      PassOne(ts, FirstOperators(k), n => n == envoyVar, FirstOperators(k + 1));
      escapedValue := ReplaceAll(escapedValue, "%%" + envoyVar + "%%", "%" + envoyVar + "%");
      ts := LetThrough(ts, n => n == envoyVar);
    }
    ReadRender(ts);
  }

  /** For every value, if the variables of the caller are plain: the result is readable, its
      operators are all allowed, no allowed operator is left escaped, and read back it is
      the value with the caller's variables substituted, every other percent sign kept as
      it was. */
  method EscapeHeaderValue(value: string, dynamicHeaders: map<string, string>)
    returns (escapedValue: string, ghost order: seq<string>)
    ensures forall k :: k in order ==> k in dynamicHeaders
    ensures '%' in value ==> Enumerates(order, dynamicHeaders.Keys)
    ensures '%' !in value ==> order == [] && escapedValue == value
    ensures escapedValue == Escaped(value, dynamicHeaders, order)
    ensures PlainVariables(dynamicHeaders) ==> Read(escapedValue).Some? && Passed(Read(escapedValue).value, Allowed)
    ensures PlainVariables(dynamicHeaders) ==>
              Meaning(Read(escapedValue).value) == Substituted(value, dynamicHeaders, order)
  {
    if '%' !in value {
      order := [];
      PlainReadsAsItself(value);
      return value, [];
    }
    escapedValue, order := SubstituteVariables(value, dynamicHeaders);
    ghost var v := Substituted(value, dynamicHeaders, order);
    ghost var ts;
    escapedValue, ts := LetOperatorsThrough(escapedValue, v);
    OperatorsAreNotReq();
    PassOne(ts, FirstOperators(|ENVOY_OPERATORS|), IsReq, Allowed);
    escapedValue := Unwrap(escapedValue, IsReq);
    ReadRender(LetThrough(ts, IsReq));
  }

  lemma OperatorsAreNotReq()
    ensures forall n :: n in ENVOY_OPERATORS ==> !IsReq(n)
    ensures ENVOY_OPERATORS[..|ENVOY_OPERATORS|] == ENVOY_OPERATORS
  {
    forall i | 0 <= i < |ENVOY_OPERATORS|
      ensures !IsReq(ENVOY_OPERATORS[i])
    {
      OperatorsArePlain(i);
    }
  }

  lemma PlainReadsAsItself(value: string)
    requires '%' !in value
    ensures Read(value) == Some(Chars(value))
    ensures Meaning(Chars(value)) == value
    ensures Passed(Chars(value), Allowed)
  {
    RenderChars(value);
    ReadRender(Chars(value));
    MeaningChars(value);
  }

  // ----- values that name no variable ------------------------------------------------------------

  ghost predicate Occurs(part: string, v: string)
  {
    exists i :: 0 <= i <= |v| && part <= v[i..]
  }

  lemma {:induction false} ReplaceAbsent(v: string, part: string, other: string)
    requires part != "" && !Occurs(part, v)
    ensures ReplaceAll(v, part, other) == v
  {
    if v != "" {
      assert v[0..] == v;
      forall i | 0 <= i <= |v[1..]|
        ensures !(part <= v[1..][i..])
      {
        assert v[1..][i..] == v[i + 1..];
      }
      ReplaceAbsent(v[1..], part, other);
    }
  }

  /** A value that names none of the variables is what its escaped form stands for. */
  lemma {:induction false} NoVariableNoChange(v: string, vars: map<string, string>, order: seq<string>)
    requires forall k :: k in order ==> k in vars && !Occurs("%" + k + "%", v)
    ensures Substituted(v, vars, order) == v
  {
    if order != [] {
      var n := |order| - 1;
      NoVariableNoChange(v, vars, order[..n]);
      ReplaceAbsent(v, "%" + order[n] + "%", vars[order[n]]);
    }
  }

  lemma LonePercentStays(part: string, other: string)
    requires |part| > 1
    ensures ReplaceAll("%", part, other) == "%"
  {
    assert "%"[1..] == "";
  }

  lemma {:induction false} LonePercentIsNoOperator(k: nat)
    requires k <= |ENVOY_OPERATORS|
    ensures OperatorsThrough("%", k) == "%"
  {
    if k > 0 {
      LonePercentIsNoOperator(k - 1);
      LonePercentStays("%%" + ENVOY_OPERATORS[k - 1] + "%%", "%" + ENVOY_OPERATORS[k - 1] + "%");
    }
  }

  lemma NameIsReplaced(name: string, other: string)
    requires PercentFree(name)
    ensures Replaced(Double("%" + name + "%"), map[name := other], [name]) == other
  {
    DoubleOf(name);
    var part := "%%" + name + "%%";
    assert [name][..0] == [] && part[|part|..] == "";
    assert ReplaceAll(part, part, other) == other + "";
  }

  /** The variables must have plain values: whatever the name of a variable, a percent sign as
      its value reaches the result alone, and the result cannot be read. */
  lemma PercentInVariableIsUnreadable(name: string)
    requires PercentFree(name)
    ensures Read(Escaped("%" + name + "%", map[name := "%"], [name])) == None
  {
    var value := "%" + name + "%";
    assert value[0] == '%';
    NameIsReplaced(name, "%");
    LonePercentIsNoOperator(|ENVOY_OPERATORS|);
    assert "%"[1..] == "";
    assert Unwrap("%", IsReq) == "%";
  }
}
