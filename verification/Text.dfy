/** The few string operations of the Go standard library that the compiler, the
    route sorter and the header policies are built on.

    A string is a sequence of bytes in Go and of characters here; every operation
    below looks only at order and equality of single elements. */
module Text {

  datatype Option<+T> = None | Some(value: T)

  lemma Regroup<T>(x: seq<T>, y: seq<T>, z: seq<T>)
    ensures x + (y + z) == (x + y) + z
  {
  }

  // ----- strings.Compare -------------------------------------------------

  /** Lexicographic comparison: -1, 0 or 1. */
  function Compare(a: string, b: string): (r: int)
    ensures -1 <= r <= 1
  {
    if a == [] then (if b == [] then 0 else -1)
    else if b == [] then 1
    else if a[0] < b[0] then -1
    else if a[0] > b[0] then 1
    else Compare(a[1..], b[1..])
  }

  lemma {:induction false} CompareEqual(a: string, b: string)
    ensures Compare(a, b) == 0 <==> a == b
  {
    if a != [] && b != [] && a[0] == b[0] {
      CompareEqual(a[1..], b[1..]);
      assert a == [a[0]] + a[1..] && b == [b[0]] + b[1..];
    }
  }

  lemma {:induction false} CompareAntisymmetric(a: string, b: string)
    ensures Compare(a, b) == -Compare(b, a)
  {
    if a != [] && b != [] && a[0] == b[0] {
      CompareAntisymmetric(a[1..], b[1..]);
    }
  }

  lemma {:induction false} CompareTransitive(a: string, b: string, c: string)
    requires Compare(a, b) == 1 && Compare(b, c) == 1
    ensures Compare(a, c) == 1
  {
    if a != [] && b != [] && c != [] && a[0] == b[0] == c[0] {
      CompareTransitive(a[1..], b[1..], c[1..]);
    }
  }

  /** The order of a dictionary: a proper prefix comes first, and otherwise the first difference
      decides. */
  ghost predicate Precedes(a: string, b: string)
  {
    a < b || exists k :: 0 <= k < |a| && k < |b| && a[..k] == b[..k] && a[k] < b[k]
  }

  lemma {:induction false} CompareMeaning(a: string, b: string)
    ensures Compare(a, b) == -1 <==> Precedes(a, b)
  {
    if a != [] && b != [] && a[0] == b[0] {
      CompareMeaning(a[1..], b[1..]);
      PrecedesCons(a, b);
    } else if a != [] && b != [] && a[0] < b[0] {
      assert a[..0] == b[..0];
    }
  }

  lemma PrecedesCons(a: string, b: string)
    requires a != [] && b != [] && a[0] == b[0]
    ensures Precedes(a, b) <==> Precedes(a[1..], b[1..])
  {
    var s, t := a[1..], b[1..];
    assert a == [a[0]] + s && b == [b[0]] + t;
    if k :| 0 <= k < |s| && k < |t| && s[..k] == t[..k] && s[k] < t[k] {
      assert a[..k + 1] == [a[0]] + s[..k] && b[..k + 1] == [b[0]] + t[..k];
      assert a[k + 1] < b[k + 1];
    }
    if k :| 0 <= k < |a| && k < |b| && a[..k] == b[..k] && a[k] < b[k] {
      assert k > 0;
      assert s[..k - 1] == a[..k][1..] && t[..k - 1] == b[..k][1..];
      assert s[k - 1] < t[k - 1];
    }
  }

  /** Among the prefixes of one string, the order is the order of lengths. */
  lemma {:induction false} ComparePrefixes(p: string, q: string, x: string)
    requires p <= x && q <= x
    ensures Compare(p, q) == if |p| < |q| then -1 else if |p| == |q| then 0 else 1
  {
    if p != [] && q != [] {
      ComparePrefixes(p[1..], q[1..], x[1..]);
    }
  }

  // ----- strings.TrimRight(s, "/") ----------------------------------------

  function TrimRight(s: string): (t: string)
    ensures t <= s
    ensures t == [] || t[|t| - 1] != '/'
    ensures forall i :: |t| <= i < |s| ==> s[i] == '/'
  {
    if s != [] && s[|s| - 1] == '/' then TrimRight(s[..|s| - 1]) else s
  }

  /** Trimming forgets exactly the trailing slashes that were added. */
  lemma TrimRightSlash(s: string)
    ensures TrimRight(s + "/") == TrimRight(s)
    ensures (s == [] || s[|s| - 1] != '/') ==> TrimRight(s) == s
  {
    assert (s + "/")[..|s + "/"| - 1] == s;
  }

  // ----- runs of slashes ----------------------------------------------------

  predicate NoDoubleSlash(s: string)
  {
    forall i :: 0 <= i < |s| - 1 ==> !(s[i] == '/' && s[i + 1] == '/')
  }

  /** A path in normal form: it starts with a slash and no slash follows another. */
  predicate SlashNormal(s: string)
  {
    s != [] && s[0] == '/' && NoDoubleSlash(s)
  }

  /** The number of slashes at the start of s. */
  function LeadingSlashes(s: string): (n: nat)
    ensures n <= |s|
    ensures forall i :: 0 <= i < n ==> s[i] == '/'
    ensures n < |s| ==> s[n] != '/'
  {
    if s != [] && s[0] == '/' then 1 + LeadingSlashes(s[1..]) else 0
  }

  /** regexp.MustCompile(`//+`).ReplaceAllString(s, `/`): every leftmost-longest
      run of two or more slashes becomes one slash. */
  function Collapse(s: string): (t: string)
    decreases |s|
  {
    if s == [] then []
    else if LeadingSlashes(s) >= 2 then "/" + Collapse(s[LeadingSlashes(s)..])
    else [s[0]] + Collapse(s[1..])
  }

  /** One character at a time: a slash that is followed by a slash is dropped. */
  lemma {:induction false} CollapseStep(s: string)
    requires s != []
    ensures Collapse(s) == if |s| >= 2 && s[0] == '/' && s[1] == '/' then Collapse(s[1..])
                           else [s[0]] + Collapse(s[1..])
  {
    var n, rest := LeadingSlashes(s), s[1..];
    if n >= 2 {
      assert LeadingSlashes(rest) == n - 1 && rest[0] == '/';
      assert rest[n - 1..] == s[n..];
      assert Collapse(rest) == "/" + Collapse(rest[n - 1..]);
    }
  }

  lemma {:induction false} CollapseIsNormal(s: string)
    ensures NoDoubleSlash(Collapse(s))
    ensures s != [] ==> Collapse(s) != [] && Collapse(s)[0] == s[0]
    decreases |s|
  {
    if s != [] {
      CollapseStep(s);
      CollapseIsNormal(s[1..]);
    }
  }

  lemma {:induction false} CollapseOfNormal(s: string)
    requires NoDoubleSlash(s)
    ensures Collapse(s) == s
    decreases |s|
  {
    if s != [] {
      CollapseStep(s);
      assert forall i :: 0 <= i < |s[1..]| ==> s[1..][i] == s[i + 1];
      CollapseOfNormal(s[1..]);
    }
  }

  lemma {:induction false} CollapseAbsorbsRight(a: string, b: string)
    ensures Collapse(a + b) == Collapse(a + Collapse(b))
    decreases |a|, |b|
  {
    CollapseIsNormal(b);
    if a == [] {
      assert a + b == b && a + Collapse(b) == Collapse(b);
      CollapseOfNormal(Collapse(b));
    } else {
      CollapseAbsorbsRight(a[1..], b);
      HeadOfConcat(a, b);
      HeadOfConcat(a, Collapse(b));
      SameCollapse(a[0], a[1..] + b, a[1..] + Collapse(b));
    }
  }

  lemma HeadOfConcat(a: string, b: string)
    requires a != []
    ensures a + b == [a[0]] + (a[1..] + b)
  {
  }

  /** A character before two texts that collapse alike and start alike. */
  lemma SameCollapse(c: char, s: string, t: string)
    requires Collapse(s) == Collapse(t) && (s == [] <==> t == []) && (s != [] ==> s[0] == t[0])
    ensures Collapse([c] + s) == Collapse([c] + t)
  {
    CollapseCons(c, s);
    CollapseCons(c, t);
  }

  lemma CollapseCons(c: char, s: string)
    ensures Collapse([c] + s) == if c == '/' && s != [] && s[0] == '/' then Collapse(s) else [c] + Collapse(s)
  {
    CollapseStep([c] + s);
    assert ([c] + s)[1..] == s;
  }

  lemma {:induction false} CollapseAbsorbsLeft(a: string, b: string)
    ensures Collapse(a + b) == Collapse(Collapse(a) + b)
    decreases |a|
  {
    if a == [] {
      assert Collapse(a) + b == a + b;
    } else {
      var rest, kept := a[1..], Collapse(a[1..]);
      assert a == [a[0]] + rest;
      assert a + b == [a[0]] + (rest + b);
      assert ([a[0]] + kept) + b == [a[0]] + (kept + b);
      CollapseCons(a[0], rest + b);
      CollapseCons(a[0], rest);
      CollapseCons(a[0], kept + b);
      CollapseIsNormal(rest);
      CollapseAbsorbsLeft(rest, b);
      if rest == [] {
        assert kept == [];
      }
    }
  }

  /** Collapsing part by part is the same as collapsing the whole. */
  lemma CollapseConcat(a: string, b: string)
    ensures Collapse(a + b) == Collapse(Collapse(a) + Collapse(b))
  {
    CollapseAbsorbsLeft(a, b);
    CollapseAbsorbsRight(Collapse(a), b);
  }

  /** What collapsing keeps: all the other characters, in order. */
  function WithoutSlashes(s: string): (t: string)
  {
    if s == [] then []
    else (if s[0] == '/' then [] else [s[0]]) + WithoutSlashes(s[1..])
  }

  lemma {:induction false} CollapseKeepsTheRest(s: string)
    ensures WithoutSlashes(Collapse(s)) == WithoutSlashes(s)
    decreases |s|
  {
    if s != [] {
      CollapseStep(s);
      CollapseKeepsTheRest(s[1..]);
      var c := Collapse(s[1..]);
      assert ([s[0]] + c)[1..] == c;
    }
  }

  // ----- strings.ToLower, on the ASCII letters that header names are made of ----

  function LowerChar(c: char): (d: char)
  {
    if 'A' <= c <= 'Z' then (c as int + 32) as char else c
  }

  function ToLower(s: string): (t: string)
    ensures |t| == |s|
    ensures forall i :: 0 <= i < |s| ==> t[i] == LowerChar(s[i])
  {
    seq(|s|, i requires 0 <= i < |s| => LowerChar(s[i]))
  }

  /** The same letter, one in upper and one in lower case. */
  predicate CaseApart(upper: char, lower: char)
  {
    'A' <= upper <= 'Z' && 'a' <= lower <= 'z' && upper as int - 'A' as int == lower as int - 'a' as int
  }

  predicate SameButCase(c: char, d: char)
  {
    c == d || CaseApart(c, d) || CaseApart(d, c)
  }

  /** Texts agree in lower case exactly if they differ in the case of letters only. */
  lemma LowerTells(a: string, b: string)
    ensures ToLower(a) == ToLower(b) <==> |a| == |b| && forall i :: 0 <= i < |a| ==> SameButCase(a[i], b[i])
  {
    forall i | 0 <= i < |a| && i < |b|
      ensures LowerChar(a[i]) == LowerChar(b[i]) <==> SameButCase(a[i], b[i])
    {
    }
    if ToLower(a) == ToLower(b) {
      forall i | 0 <= i < |a|
        ensures SameButCase(a[i], b[i])
      {
        assert ToLower(a)[i] == ToLower(b)[i];
      }
    }
  }

  // ----- strconv.Itoa of a non-negative number ---------------------------------

  function Itoa(n: nat): (s: string)
    ensures s != []
  {
    if n < 10 then [Digit(n)] else Itoa(n / 10) + [Digit(n % 10)]
  }

  function Digit(n: nat): (c: char)
    requires n < 10
    ensures '0' <= c <= '9' && c as int - '0' as int == n
  {
    ('0' as int + n) as char
  }

  /** The number that a text of digits is. */
  function NumberOf(digits: string): (n: int)
  {
    if digits == "" then 0
    else 10 * NumberOf(digits[..|digits| - 1]) + (digits[|digits| - 1] as int - '0' as int)
  }

  /** A number in decimal: only digits, no zero in front, and its value is the number. */
  lemma {:induction false} ItoaIsDecimal(n: nat)
    ensures forall i :: 0 <= i < |Itoa(n)| ==> '0' <= Itoa(n)[i] <= '9'
    ensures NumberOf(Itoa(n)) == n
    ensures Itoa(n)[0] == '0' <==> n == 0
  {
    if n < 10 {
      NumberOfSnoc("", Digit(n));
    } else {
      ItoaIsDecimal(n / 10);
      NumberOfSnoc(Itoa(n / 10), Digit(n % 10));
    }
  }

  lemma NumberOfSnoc(digits: string, d: char)
    ensures NumberOf(digits + [d]) == 10 * NumberOf(digits) + (d as int - '0' as int)
  {
    assert (digits + [d])[..|digits|] == digits;
  }

  // ----- strings.TrimSpace -----------------------------------------------------------------

  /** unicode.IsSpace. */
  predicate IsSpace(c: char)
  {
    || '\t' <= c <= '\r' || c == ' ' || c == '\U{0085}' || c == '\U{00A0}' || c == '\U{1680}'
    || '\U{2000}' <= c <= '\U{200A}' || c == '\U{2028}' || c == '\U{2029}' || c == '\U{202F}'
    || c == '\U{205F}' || c == '\U{3000}'
  }

  function TrimSpace(s: string): (t: string)
  {
    if s == "" then ""
    else if IsSpace(s[0]) then TrimSpace(s[1..])
    else if IsSpace(s[|s| - 1]) then TrimSpace(s[..|s| - 1])
    else s
  }

  /** Trimming leaves nothing exactly of texts of nothing but space. */
  lemma {:induction false} TrimSpaceIsEmptyWhen(s: string)
    ensures TrimSpace(s) == "" <==> forall i :: 0 <= i < |s| ==> IsSpace(s[i])
  {
    if s == "" {
    } else if IsSpace(s[0]) {
      TrimSpaceIsEmptyWhen(s[1..]);
      assert s == [s[0]] + s[1..];
    } else if IsSpace(s[|s| - 1]) {
      TrimSpaceIsEmptyWhen(s[..|s| - 1]);
      assert !IsSpace(s[0]);
    }
  }
}
