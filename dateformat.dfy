/**
 * Translation of a Java-style date pattern (`yyyy-MM-dd HH:mm:ss`) into a
 * C `strftime` format (`%Y-%m-%d %H:%M:%S`).  The pattern is cut into
 * maximal runs of one pattern letter and single other characters; each run
 * is replaced as a unit and every other character is kept.
 */
module DateFormat {
  import opened Wrappers

  /** The letters the pattern recognises, in the order its alternation lists them. */
  const PatternLetters: string := "yYMdhHmsSEDwazZ"

  predicate IsPatternLetter(c: char)
  {
    c in PatternLetters
  }

  function StartsWith(s: string, c: char): bool
  {
    |s| > 0 && s[0] == c
  }

  /** `n` copies of `c`. */
  function Repeat(c: char, n: nat): (s: string)
    ensures |s| == n && forall i :: 0 <= i < n ==> s[i] == c
  {
    if n == 0 then [] else [c] + Repeat(c, n - 1)
  }

  /**
   * `_replacer`: the strftime directive for a matched run, chosen by its
   * first letter.  Years are two-digit below four letters; fractional
   * seconds stay as they are; the day-name test measures the literal "E",
   * so every run of E is the short day name.  A run of any other letter
   * falls through the chain (None).
   */
  function Replacer(what: string): (r: Option<string>)
    ensures r.Some? <==> |what| > 0 && IsPatternLetter(what[0])
    ensures r.Some? && what[0] != 'S' ==> |r.value| == 2 && r.value[0] == '%'
  {
    if StartsWith(what, 'y') || StartsWith(what, 'Y') then
      if |what| < 4 then Some("%y") else Some("%Y")
    else if StartsWith(what, 'M') then Some("%m")
    else if StartsWith(what, 'd') then Some("%d")
    else if StartsWith(what, 'h') then Some("%I")
    else if StartsWith(what, 'H') then Some("%H")
    else if StartsWith(what, 'm') then Some("%M")
    else if StartsWith(what, 's') then Some("%S")
    else if StartsWith(what, 'S') then Some(what)
    else if StartsWith(what, 'E') then
      if |"E"| <= 3 then Some("%a") else Some("%A")
    else if StartsWith(what, 'D') then Some("%j")
    else if StartsWith(what, 'w') then Some("%U")
    else if StartsWith(what, 'a') then Some("%p")
    else if StartsWith(what, 'z') then Some("%z")
    else if StartsWith(what, 'Z') then Some("%Z")
    else None
  }

  /** The directive of each letter whose replacement does not depend on the run's length. */
  const FixedDirectives: map<char, string> := map[
    'M' := "%m", 'd' := "%d", 'h' := "%I", 'H' := "%H", 'm' := "%M", 's' := "%S",
    'E' := "%a", 'D' := "%j", 'w' := "%U", 'a' := "%p", 'z' := "%z", 'Z' := "%Z"]

  /** Runs of y or Y: two-digit year below four letters, four-digit year from four on. */
  lemma YearRun(c: char, n: nat)
    requires (c == 'y' || c == 'Y') && n >= 1
    ensures Replacer(Repeat(c, n)) == Some(if n < 4 then "%y" else "%Y")
  {
  }

  /** Runs of every other letter but S map to one directive whatever their length. */
  lemma FixedRun(c: char, n: nat)
    requires c in FixedDirectives && n >= 1
    ensures Replacer(Repeat(c, n)) == Some(FixedDirectives[c])
  {
  }

  /** Runs of E give the short day name even when four or more letters ask for the full one. */
  lemma DayNameRun(n: nat)
    requires n >= 1
    ensures Replacer(Repeat('E', n)) == Some("%a")
  {
  }

  /** Runs of S are copied unchanged. */
  lemma FractionRun(n: nat)
    requires n >= 1
    ensures Replacer(Repeat('S', n)) == Some(Repeat('S', n))
  {
  }

  // ---------------------------------------------------------------------
  // Cutting a pattern into runs

  /** A maximal run of one pattern letter, or one character kept as it is. */
  datatype Token = Run(letter: char, count: nat) | Literal(c: char)

  /** The length of the run of `c` at the start of `s`. */
  function RunLength(s: string, c: char): (n: nat)
    ensures n <= |s|
  {
    if s == [] || s[0] != c then 0 else 1 + RunLength(s[1..], c)
  }

  /** The run is made of `c` and is maximal: the character after it, if any, is not `c`. */
  lemma {:induction false} RunLengthMaximal(s: string, c: char)
    ensures forall i :: 0 <= i < RunLength(s, c) ==> s[i] == c
    ensures RunLength(s, c) == |s| || s[RunLength(s, c)] != c
  {
    if s != [] && s[0] == c {
      RunLengthMaximal(s[1..], c);
    }
  }

  /** The first token of a non-empty pattern: the run its first letter starts, or its first character. */
  function FirstToken(s: string): (t: Token)
    requires s != []
    ensures t.Run? <==> IsPatternLetter(s[0])
    ensures t.Run? ==> t.letter == s[0] && t.count >= 1
    ensures t.Literal? ==> t.c == s[0]
  {
    if IsPatternLetter(s[0]) then Run(s[0], RunLength(s, s[0])) else Literal(s[0])
  }

  /** How many characters the first token of a non-empty pattern covers. */
  function FirstTokenLength(s: string): (k: nat)
    requires s != []
    ensures 0 < k <= |s|
  {
    if IsPatternLetter(s[0]) then RunLength(s, s[0]) else 1
  }

  /** The matches the pattern's alternation finds, with the characters between them. */
  function Tokenize(s: string): (ts: seq<Token>)
    ensures |ts| <= |s|
    ensures ts == [] <==> s == []
    decreases |s|
  {
    if s == [] then [] else [FirstToken(s)] + Tokenize(s[FirstTokenLength(s)..])
  }

  /** The text a token stands for. */
  function Spell(t: Token): (s: string)
  {
    match t
    case Run(c, n) => Repeat(c, n)
    case Literal(c) => [c]
  }

  function SpellAll(ts: seq<Token>): (s: string)
  {
    if ts == [] then [] else Spell(ts[0]) + SpellAll(ts[1..])
  }

  /** Runs are non-empty runs of pattern letters, literals are other characters, and no run is followed by a run of its own letter. */
  predicate WellFormed(ts: seq<Token>)
  {
    (forall i :: 0 <= i < |ts| && ts[i].Run? ==> ts[i].count >= 1 && IsPatternLetter(ts[i].letter)) &&
    (forall i :: 0 <= i < |ts| && ts[i].Literal? ==> !IsPatternLetter(ts[i].c)) &&
    (forall i :: 0 <= i < |ts| - 1 && ts[i].Run? && ts[i + 1].Run? ==> ts[i].letter != ts[i + 1].letter)
  }

  /** Tokenizing loses nothing: the tokens spell the pattern back. */
  lemma {:induction false} TokenizeRoundTrip(s: string)
    ensures SpellAll(Tokenize(s)) == s
    decreases |s|
  {
    if s != [] {
      var k := FirstTokenLength(s);
      TokenizeRoundTrip(s[k..]);
      SpellAllCons(FirstToken(s), Tokenize(s[k..]));
      SpellFirstToken(s);
      SplitAt(s, k);
    }
  }

  /** Stated apart so that the sequence fact does not enlarge the callers' proof obligations. */
  lemma SplitAt<T>(s: seq<T>, k: nat)
    requires k <= |s|
    ensures s[..k] + s[k..] == s
  {
  }

  lemma SpellAllCons(t: Token, ts: seq<Token>)
    ensures SpellAll([t] + ts) == Spell(t) + SpellAll(ts)
  {
    assert ([t] + ts)[1..] == ts;
  }

  /** The first token spells the characters it covers. */
  lemma SpellFirstToken(s: string)
    requires s != []
    ensures Spell(FirstToken(s)) == s[..FirstTokenLength(s)]
  {
    if IsPatternLetter(s[0]) {
      RunLengthMaximal(s, s[0]);
    }
  }

  /** Tokens are well formed; in particular every run is maximal. */
  lemma {:induction false} TokenizeWellFormed(s: string)
    ensures WellFormed(Tokenize(s))
    decreases |s|
  {
    if s != [] {
      var k := FirstTokenLength(s);
      var rest := s[k..];
      TokenizeWellFormed(rest);
      if IsPatternLetter(s[0]) {
        RunLengthMaximal(s, s[0]);
        if rest != [] {
          assert rest[0] == s[k] && Tokenize(rest)[0] == FirstToken(rest);
        }
      }
      ConsWellFormed(FirstToken(s), Tokenize(rest));
    }
  }

  lemma ConsWellFormed(t: Token, ts: seq<Token>)
    requires WellFormed(ts)
    requires t.Run? ==> t.count >= 1 && IsPatternLetter(t.letter)
    requires t.Literal? ==> !IsPatternLetter(t.c)
    requires t.Run? && |ts| > 0 && ts[0].Run? ==> t.letter != ts[0].letter
    ensures WellFormed([t] + ts)
  {
    var us := [t] + ts;
    forall i | 0 <= i < |us| - 1 && us[i].Run? && us[i + 1].Run?
      ensures us[i].letter != us[i + 1].letter
    {
      if i > 0 {
        assert us[i] == ts[i - 1] && us[i + 1] == ts[i];
      }
    }
  }

  // ---------------------------------------------------------------------
  // Substitution

  /** The replacement of one token: a run's directive (a run the chain does not cover adds nothing), a literal itself. */
  function Substitute(t: Token): (s: string)
  {
    match t
    case Run(c, n) =>
      (match Replacer(Repeat(c, n)) case Some(r) => r case None => [])
    case Literal(c) => [c]
  }

  function SubstituteAll(ts: seq<Token>): (s: string)
  {
    if ts == [] then [] else Substitute(ts[0]) + SubstituteAll(ts[1..])
  }

  /** The strftime format a date pattern translates to: only the empty pattern translates to nothing. */
  function Translate(pattern: string): (r: string)
    ensures r == [] <==> pattern == []
  {
    TokenizeWellFormed(pattern);
    SubstituteAllEmpty(Tokenize(pattern));
    SubstituteAll(Tokenize(pattern))
  }

  /** Well-formed tokens each stand for some text, so only no tokens substitute to nothing. */
  lemma SubstituteAllEmpty(ts: seq<Token>)
    requires WellFormed(ts)
    ensures SubstituteAll(ts) == [] <==> ts == []
  {
    if ts != [] {
      if ts[0].Run? {
        EveryRunReplaced(ts, 0);
      }
      assert |Substitute(ts[0])| > 0;
    }
  }

  /** `SimpleDateFormat`: the pattern given at construction, translated on demand. */
  datatype SimpleDateFormat = SimpleDateFormat(format: string)
  {
    function StrftimeFormat(): (r: string)
      ensures r == [] <==> format == []
    {
      Translate(format)
    }
  }

  /** Every run the tokenizer produces has a replacement: the chain of `_replacer` is total over the pattern letters. */
  lemma {:induction false} EveryRunReplaced(ts: seq<Token>, i: nat)
    requires WellFormed(ts) && i < |ts| && ts[i].Run?
    ensures Replacer(Spell(ts[i])).Some?
  {
  }

  /** A pattern without pattern letters translates to itself. */
  lemma {:induction false} TranslateLetterFree(s: string)
    requires forall i :: 0 <= i < |s| ==> !IsPatternLetter(s[i])
    ensures Translate(s) == s
    decreases |s|
  {
    if s != [] {
      TranslateLetterFree(s[1..]);
      assert Tokenize(s) == [Literal(s[0])] + Tokenize(s[1..]);
      assert Tokenize(s)[1..] == Tokenize(s[1..]);
      assert s == [s[0]] + s[1..];
    }
  }

  /** A date format without pattern letters hands its pattern to `strftime` unchanged. */
  lemma StrftimeFormatLetterFree(f: SimpleDateFormat)
    requires forall i :: 0 <= i < |f.format| ==> !IsPatternLetter(f.format[i])
    ensures f.StrftimeFormat() == f.format
  {
    TranslateLetterFree(f.format);
  }

  /** A whole run is replaced as one unit. */
  lemma TranslateRun(c: char, n: nat)
    requires IsPatternLetter(c) && n >= 1
    ensures Translate(Repeat(c, n)) == Replacer(Repeat(c, n)).value
  {
    var s := Repeat(c, n);
    RunLengthMaximal(s, c);
    assert RunLength(s, c) == n;
    assert s[n..] == [];
    assert Tokenize(s) == [Run(c, n)];
  }

  lemma {:induction false} SubstituteAllConcat(xs: seq<Token>, ys: seq<Token>)
    ensures SubstituteAll(xs + ys) == SubstituteAll(xs) + SubstituteAll(ys)
    decreases |xs|
  {
    if xs == [] {
      assert xs + ys == ys;
    } else {
      SubstituteAllConcat(xs[1..], ys);
      assert (xs + ys)[0] == xs[0] && (xs + ys)[1..] == xs[1..] + ys;
      var h := Substitute(xs[0]);
      assert h + (SubstituteAll(xs[1..]) + SubstituteAll(ys)) == (h + SubstituteAll(xs[1..])) + SubstituteAll(ys);
    }
  }

  lemma FirstTokenConcat(a: string, b: string)
    requires a != []
    requires b == [] || !IsPatternLetter(a[|a| - 1]) || a[|a| - 1] != b[0]
    ensures FirstTokenLength(a + b) == FirstTokenLength(a) && FirstToken(a + b) == FirstToken(a)
  {
    assert (a + b)[0] == a[0];
    if IsPatternLetter(a[0]) {
      RunLengthConcat(a, b, a[0]);
    }
  }

  /** The run at the start of `a` is not lengthened by `b` when `a` does not end inside it or `b` starts with another letter. */
  lemma RunLengthConcat(a: string, b: string, c: char)
    requires a != [] && a[0] == c
    requires b == [] || a[|a| - 1] != c || a[|a| - 1] != b[0]
    ensures RunLength(a + b, c) == RunLength(a, c)
  {
    var s, n := a + b, RunLength(a, c);
    RunLengthMaximal(a, c);
    RunLengthMaximal(s, c);
    if n < |a| {
      assert s[n] == a[n];
    } else if b != [] {
      assert s[n] == b[0];
    }
  }

  /** Where `a` does not end inside a run that `b` continues, `a + b` is cut into the tokens of `a` followed by those of `b`. */
  lemma {:induction false} TokenizeConcat(a: string, b: string)
    requires a == [] || b == [] || !IsPatternLetter(a[|a| - 1]) || a[|a| - 1] != b[0]
    ensures Tokenize(a + b) == Tokenize(a) + Tokenize(b)
    decreases |a|
  {
    if a == [] {
      assert a + b == b;
    } else {
      var k := FirstTokenLength(a);
      FirstTokenConcat(a, b);
      ConcatLast(a, b, k);
      TokenizeConcat(a[k..], b);
      ConsAssociates(FirstToken(a), Tokenize(a[k..]), Tokenize(b));
    }
  }

  /** The rest of `a + b` after `a`'s first token; stated apart to keep TokenizeConcat's proof small. */
  lemma ConcatLast(a: string, b: string, k: nat)
    requires 0 < k <= |a|
    ensures (a + b)[k..] == a[k..] + b
    ensures a[k..] == [] || a[k..][|a[k..]| - 1] == a[|a| - 1]
  {
  }

  lemma ConsAssociates<T>(t: T, xs: seq<T>, ys: seq<T>)
    ensures [t] + (xs + ys) == ([t] + xs) + ys
  {
  }

  /** Patterns that meet outside a run translate piece by piece; `yyMM` is `yy` then `MM`. */
  lemma TranslateConcat(a: string, b: string)
    requires a == [] || b == [] || !IsPatternLetter(a[|a| - 1]) || a[|a| - 1] != b[0]
    ensures Translate(a + b) == Translate(a) + Translate(b)
  {
    TokenizeConcat(a, b);
    SubstituteAllConcat(Tokenize(a), Tokenize(b));
  }

  /** Adjacent runs of different letters are replaced independently. */
  lemma AdjacentRuns(c: char, n: nat, d: char, m: nat)
    requires IsPatternLetter(c) && IsPatternLetter(d) && c != d && n >= 1 && m >= 1
    ensures Translate(Repeat(c, n) + Repeat(d, m)) == Replacer(Repeat(c, n)).value + Replacer(Repeat(d, m)).value
  {
    TranslateConcat(Repeat(c, n), Repeat(d, m));
    TranslateRun(c, n);
    TranslateRun(d, m);
  }

  /** A literal character in front of a pattern is kept and the rest translated on. */
  lemma TranslateLiteral(c: char, s: string)
    requires !IsPatternLetter(c)
    ensures Translate([c] + s) == [c] + Translate(s)
  {
    TranslateConcat([c], s);
    TranslateLetterFree([c]);
  }

  /** A run in front of a pattern that does not continue it is replaced and the rest translated on. */
  lemma TranslateRunThen(c: char, n: nat, s: string)
    requires IsPatternLetter(c) && n >= 1 && (s == [] || s[0] != c)
    ensures Translate(Repeat(c, n) + s) == Replacer(Repeat(c, n)).value + Translate(s)
  {
    TranslateConcat(Repeat(c, n), s);
    TranslateRun(c, n);
  }

  /** A two-letter year run followed by a two-letter month run. */
  lemma ShortYearThenMonth(p: string)
    requires p == Repeat('y', 2) + Repeat('M', 2)
    ensures Translate(p) == "%y%m"
  {
    AdjacentRuns('y', 2, 'M', 2);
    YearRun('y', 2);
    FixedRun('M', 2);
  }

  /** `yyMM` is a two-digit year followed by the month. */
  lemma YearThenMonth()
    ensures Translate("yyMM") == "%y%m"
  {
    assert Repeat('y', 2) + Repeat('M', 2) == "yyMM";
    ShortYearThenMonth("yyMM");
  }
}
