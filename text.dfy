/** The standard-library text handling the programs use on their input: `str::split` on one character,
    `str::trim`, `str::lines` and `FromStr` for the integer types, plus the decimal rendering that
    is its inverse. */
module Text {
  import opened Base

  /** ASCII whitespace as `char::is_whitespace` sees it (the non-ASCII spaces are not modelled). */
  predicate IsSpace(c: char) { c == ' ' || '\t' <= c <= '\r' }

  predicate IsDigit(c: char) { '0' <= c <= '9' }

  predicate AllDigits(s: string) { forall k :: 0 <= k < |s| ==> IsDigit(s[k]) }

  /** Joins pieces with a separator between every two of them: the inverse of `Split`. */
  function Join(pieces: seq<string>, sep: char): string
    requires |pieces| > 0
  {
    if |pieces| == 1 then pieces[0] else pieces[0] + [sep] + Join(pieces[1..], sep)
  }

  /** `s.split(sep)`: the maximal pieces between separators, in order; always at least one piece. */
  function Split(s: string, sep: char): (pieces: seq<string>)
    ensures |pieces| > 0
    ensures forall i :: 0 <= i < |pieces| ==> sep !in pieces[i]
    ensures Join(pieces, sep) == s
  {
    if s == [] then [[]]
    else
      var rest := Split(s[1..], sep);
      if s[0] == sep then
        assert [sep] + s[1..] == s;
        [[]] + rest
      else
        var pieces := [[s[0]] + rest[0]] + rest[1..];
        assert pieces[1..] == rest[1..];
        assert |rest| > 1 ==> Join(rest, sep) == rest[0] + [sep] + Join(rest[1..], sep);
        assert [s[0]] + s[1..] == s;
        pieces
  }

  lemma {:induction false} SplitUnseparated(p: string, sep: char)
    requires sep !in p
    ensures Split(p, sep) == [p]
  {
    if p != [] {
      SplitUnseparated(p[1..], sep);
      assert [p[0]] + p[1..] == p;
    }
  }

  lemma {:induction false} SplitFirst(p: string, t: string, sep: char)
    requires sep !in p
    ensures Split(p + [sep] + t, sep) == [p] + Split(t, sep)
  {
    var s := p + [sep] + t;
    if p == [] {
      assert s[1..] == t;
    } else {
      assert s[1..] == p[1..] + [sep] + t;
      SplitFirst(p[1..], t, sep);
      assert [p[0]] + p[1..] == p;
    }
  }

  /** Splitting a joined sequence of separator-free pieces gives the pieces back. */
  lemma {:induction false} SplitJoin(pieces: seq<string>, sep: char)
    requires |pieces| > 0
    requires forall i :: 0 <= i < |pieces| ==> sep !in pieces[i]
    ensures Split(Join(pieces, sep), sep) == pieces
  {
    if |pieces| == 1 {
      SplitUnseparated(pieces[0], sep);
    } else {
      SplitJoin(pieces[1..], sep);
      SplitFirst(pieces[0], Join(pieces[1..], sep), sep);
      assert [pieces[0]] + pieces[1..] == pieces;
    }
  }

  /** The first index at or after `i` that does not hold whitespace, or |s|. */
  function TrimFrom(s: string, i: nat): (r: nat)
    requires i <= |s|
    ensures i <= r <= |s|
    ensures r == |s| || !IsSpace(s[r])
    ensures forall k :: i <= k < r ==> IsSpace(s[k])
    decreases |s| - i
  {
    if i < |s| && IsSpace(s[i]) then TrimFrom(s, i + 1) else i
  }

  /** One past the last index below `j` that does not hold whitespace, or 0. */
  function TrimUntil(s: string, j: nat): (r: nat)
    requires j <= |s|
    ensures r <= j
    ensures r == 0 || !IsSpace(s[r - 1])
    ensures forall k :: r <= k < j ==> IsSpace(s[k])
  {
    if j > 0 && IsSpace(s[j - 1]) then TrimUntil(s, j - 1) else j
  }

  /** `s.trim()`: `s` without its leading and trailing whitespace. */
  function Trim(s: string): (t: string)
    ensures t == [] || (!IsSpace(t[0]) && !IsSpace(t[|t| - 1]))
  {
    var start := TrimFrom(s, 0);
    if start == |s| then [] else s[start..TrimUntil(s, |s|)]
  }

  /** `trim` removes a run of white space at each end and nothing else: the result is a slice of `s`
      with only white space before and after it. */
  lemma TrimStrips(s: string)
    ensures exists i, j :: 0 <= i <= j <= |s| && Trim(s) == s[i..j] &&
              (forall k :: 0 <= k < i ==> IsSpace(s[k])) && (forall k :: j <= k < |s| ==> IsSpace(s[k]))
  {
    var start := TrimFrom(s, 0);
    if start == |s| {
      assert Trim(s) == s[|s|..|s|];
    } else {
      var stop := TrimUntil(s, |s|);
      assert start < stop;
      assert Trim(s) == s[start..stop];
    }
  }

  lemma TrimUnspaced(s: string)
    requires forall k :: 0 <= k < |s| ==> !IsSpace(s[k])
    ensures Trim(s) == s
  {
  }

  /** Trimming white space around a core that neither starts nor ends with white space gives the core. */
  lemma TrimPadded(before: string, core: string, after: string)
    requires forall k :: 0 <= k < |before| ==> IsSpace(before[k])
    requires forall k :: 0 <= k < |after| ==> IsSpace(after[k])
    requires core == [] || (!IsSpace(core[0]) && !IsSpace(core[|core| - 1]))
    ensures Trim(before + core + after) == core
  {
    var s := before + core + after;
    TrimStrips(s);
    var i, j :| 0 <= i <= j <= |s| && Trim(s) == s[i..j] &&
      (forall k :: 0 <= k < i ==> IsSpace(s[k])) && (forall k :: j <= k < |s| ==> IsSpace(s[k]));
    var b, e := |before|, |before| + |core|;
    if core == [] {
      assert forall k :: 0 <= k < |s| ==> IsSpace(s[k]);
    } else {
      assert !IsSpace(s[b]) && !IsSpace(s[e - 1]);
      assert s[b..e] == core;
    }
  }

  /** The value of a string of decimal digits, most significant first. */
  function DigitsValue(s: string): nat
    requires AllDigits(s)
  {
    if s == [] then 0 else DigitsValue(s[..|s| - 1]) * 10 + (s[|s| - 1] as int - '0' as int)
  }

  /** `s.parse::<T>()` for an integer type T whose values are lo ..= hi: one or more ASCII digits after
      an optional sign; '+' is always accepted, '-' only when T is signed (lo < 0); the value must lie
      in range. No whitespace is accepted. */
  function ParseInteger(s: string, lo: int, hi: int): (r: Option<int>)
    requires lo <= 0 <= hi
    ensures r.Some? ==> lo <= r.value <= hi
    ensures r.Some? ==> |s| > 0 && forall k :: 0 <= k < |s| ==> IsDigit(s[k]) || (k == 0 && s[0] in "+-")
    ensures r.Some? && s[0] == '-' ==> lo < 0
  {
    if |s| > 1 && s[0] == '-' && lo < 0 && AllDigits(s[1..]) then
      var magnitude: int := DigitsValue(s[1..]);
      if lo <= -magnitude then Some(-magnitude) else None
    else if |s| > 1 && s[0] == '+' && AllDigits(s[1..]) then
      (if DigitsValue(s[1..]) <= hi then Some(DigitsValue(s[1..])) else None)
    else if |s| > 0 && AllDigits(s) && DigitsValue(s) <= hi then
      Some(DigitsValue(s))
    else
      None
  }

  /** `n.to_string()` for a natural number: its decimal digits without leading zeros. */
  function ShowNat(n: nat): (s: string)
    ensures |s| > 0 && AllDigits(s)
  {
    var digit := ('0' as int + n % 10) as char;
    if n < 10 then [digit] else ShowNat(n / 10) + [digit]
  }

  /** `n.to_string()`: a '-' before the digits of a negative number. */
  function ShowInt(n: int): (s: string)
    ensures |s| > 0 && forall k :: 0 <= k < |s| ==> IsDigit(s[k]) || (k == 0 && n < 0 && s[0] == '-')
  {
    if n < 0 then ['-'] + ShowNat(-n) else ShowNat(n)
  }

  lemma {:induction false} DigitsValueOfShowNat(n: nat)
    ensures DigitsValue(ShowNat(n)) == n
  {
    var s := ShowNat(n);
    if n >= 10 {
      DigitsValueOfShowNat(n / 10);
      assert s[..|s| - 1] == ShowNat(n / 10);
    }
  }

  /** Parsing inverts rendering for every value of the type. */
  lemma ParseShowInt(n: int, lo: int, hi: int)
    requires lo <= n <= hi && lo <= 0 <= hi
    ensures ParseInteger(ShowInt(n), lo, hi) == Some(n)
  {
    var s := ShowInt(n);
    if n < 0 {
      DigitsValueOfShowNat(-n);
      assert s[1..] == ShowNat(-n);
    } else {
      DigitsValueOfShowNat(n);
    }
  }

  /** The results of a sequence of steps taken in order: the first failure, or all the values.
      This is `collect` into a vector of the values that `unwrap` lets through. */
  function Collect<T>(results: seq<Result<T>>): (r: Result<seq<T>>)
    ensures r.Success? ==> |r.value| == |results|
    ensures r.Failure? ==> Failure(r.error) in results
  {
    if results == [] then Success([])
    else if results[0].Failure? then Failure(results[0].error)
    else
      var rest := Collect(results[1..]);
      if rest.Failure? then rest else Success([results[0].value] + rest.value)
  }

  /** After a successful collection, value i is the value of result i. */
  lemma {:induction false} CollectValues<T>(results: seq<Result<T>>)
    requires Collect(results).Success?
    ensures forall i :: 0 <= i < |results| ==> results[i] == Success(Collect(results).value[i])
  {
    if results != [] {
      var rest := results[1..];
      CollectValues(rest);
      assert forall i :: 1 <= i < |results| ==> results[i] == rest[i - 1];
    }
  }

  /** A failed collection fails with the first failing result: every result before it succeeded. */
  lemma {:induction false} CollectFirst<T>(results: seq<Result<T>>)
    requires Collect(results).Failure?
    ensures exists i :: 0 <= i < |results| && results[i] == Failure(Collect(results).error) &&
                        forall j :: 0 <= j < i ==> results[j].Success?
  {
    if results[0].Success? {
      var rest := results[1..];
      CollectFirst(rest);
      var i :| 0 <= i < |rest| && rest[i] == Failure(Collect(rest).error) &&
                forall j :: 0 <= j < i ==> rest[j].Success?;
      assert results[i + 1] == rest[i];
      assert forall j :: 1 <= j < i + 1 ==> results[j] == rest[j - 1];
    } else {
      assert results[0] == Failure(Collect(results).error);
    }
  }

  /** One token: trimmed, then parsed, or the trimmed text as the error. */
  function ParseToken(token: string, lo: int, hi: int): (r: Result<int>)
    requires lo <= 0 <= hi
    ensures r.Success? ==> lo <= r.value <= hi
    ensures r.Failure? ==> r.error.ParseError? && ParseInteger(r.error.token, lo, hi).None?
  {
    match ParseInteger(Trim(token), lo, hi)
    case None => Failure(ParseError(Trim(token)))
    case Some(w) => Success(w)
  }

  /** Parses trimmed tokens left to right and stops at the first one that is not an integer of the
      type, as `map(|e| e.trim().parse().unwrap()).collect()` does. */
  function ParseTokens(tokens: seq<string>, lo: int, hi: int): (r: Result<seq<int>>)
    requires lo <= 0 <= hi
    ensures r.Success? ==> |r.value| == |tokens| && forall i :: 0 <= i < |r.value| ==> lo <= r.value[i] <= hi
    ensures r.Failure? ==> r.error.ParseError? && ParseInteger(r.error.token, lo, hi).None?
  {
    var results := seq(|tokens|, i requires 0 <= i < |tokens| => ParseToken(tokens[i], lo, hi));
    var r := Collect(results);
    if r.Success? then CollectValues(results); r else r
  }

  /** Parsing succeeds exactly when every trimmed token is an integer of the type, and then word i is
      the value of token i. */
  lemma ParseTokensCharacterized(tokens: seq<string>, lo: int, hi: int)
    requires lo <= 0 <= hi
    ensures ParseTokens(tokens, lo, hi).Success? <==>
              forall i :: 0 <= i < |tokens| ==> ParseInteger(Trim(tokens[i]), lo, hi).Some?
    ensures ParseTokens(tokens, lo, hi).Success? ==>
              forall i :: 0 <= i < |tokens| ==> ParseInteger(Trim(tokens[i]), lo, hi) == Some(ParseTokens(tokens, lo, hi).value[i])
  {
    var results := seq(|tokens|, i requires 0 <= i < |tokens| => ParseToken(tokens[i], lo, hi));
    var r := Collect(results);
    assert ParseTokens(tokens, lo, hi) == r;
    if r.Success? {
      CollectValues(results);
      forall i | 0 <= i < |tokens|
        ensures ParseInteger(Trim(tokens[i]), lo, hi) == Some(r.value[i])
      {
        assert ParseToken(tokens[i], lo, hi) == Success(r.value[i]);
      }
    }
  }

  /** A program text: comma-separated integers of the word type lo ..= hi, whitespace allowed around each. */
  function ParseProgram(text: string, lo: int, hi: int): (r: Result<seq<int>>)
    requires lo <= 0 <= hi
    ensures r.Success? ==> |r.value| > 0 && forall i :: 0 <= i < |r.value| ==> lo <= r.value[i] <= hi
  {
    ParseTokens(Split(text, ','), lo, hi)
  }

  /** Writes a program back as text: the words in decimal, separated by commas. */
  function Format(words: seq<int>): string
    requires |words| > 0
  {
    Join(seq(|words|, i requires 0 <= i < |words| => ShowInt(words[i])), ',')
  }

  lemma RenderedWord(n: int, lo: int, hi: int)
    requires lo <= n <= hi && lo <= 0 <= hi
    ensures ',' !in ShowInt(n)
    ensures ParseInteger(Trim(ShowInt(n)), lo, hi) == Some(n)
  {
    var s := ShowInt(n);
    assert forall k :: 0 <= k < |s| ==> s[k] != ',' && !IsSpace(s[k]);
    TrimUnspaced(s);
    ParseShowInt(n, lo, hi);
  }

  /** Every nonempty program of in-range words survives formatting and parsing unchanged. */
  lemma ParseFormat(words: seq<int>, lo: int, hi: int)
    requires |words| > 0 && lo <= 0 <= hi
    requires forall i :: 0 <= i < |words| ==> lo <= words[i] <= hi
    ensures ParseProgram(Format(words), lo, hi) == Success(words)
  {
    var tokens := seq(|words|, i requires 0 <= i < |words| => ShowInt(words[i]));
    forall i | 0 <= i < |tokens|
      ensures ',' !in tokens[i]
      ensures ParseInteger(Trim(tokens[i]), lo, hi) == Some(words[i])
    {
      RenderedWord(words[i], lo, hi);
    }
    SplitJoin(tokens, ',');
    ParseTokensCharacterized(tokens, lo, hi);
    var r := ParseTokens(tokens, lo, hi);
    assert r.Success?;
    assert r.value == words;
  }

  /** Extending the last piece extends the joined text by the same characters. */
  lemma {:induction false} JoinExtendLast(pieces: seq<string>, sep: char, tail: string)
    requires |pieces| > 0
    ensures Join(pieces[..|pieces| - 1] + [pieces[|pieces| - 1] + tail], sep) == Join(pieces, sep) + tail
    decreases |pieces|
  {
    var extended := pieces[..|pieces| - 1] + [pieces[|pieces| - 1] + tail];
    if |pieces| > 1 {
      var rest := pieces[1..];
      JoinExtendLast(rest, sep, tail);
      assert extended[1..] == rest[..|rest| - 1] + [rest[|rest| - 1] + tail];
    }
  }

  /** A line break after a word is trimmed away. */
  lemma TrimLineEnd(w: string)
    requires w == [] || (!IsSpace(w[0]) && !IsSpace(w[|w| - 1]))
    ensures Trim(w + "\n") == w
  {
    TrimPadded([], w, "\n");
    assert [] + w + "\n" == w + "\n";
  }

  /** A word followed by a line break reads as that word. */
  lemma RenderedLastWord(n: int, lo: int, hi: int)
    requires lo <= n <= hi && lo <= 0 <= hi
    ensures ',' !in ShowInt(n) + "\n"
    ensures ParseInteger(Trim(ShowInt(n) + "\n"), lo, hi) == Some(n)
  {
    var w := ShowInt(n);
    assert !IsSpace(w[0]) && !IsSpace(w[|w| - 1]);
    assert forall k :: 0 <= k < |w| ==> w[k] != ',';
    TrimLineEnd(w);
    ParseShowInt(n, lo, hi);
  }

  /** A program text as a file holds it, ended by a line break, reads as its words: the break is
      trimmed from the last word. */
  lemma ParseFormatLine(words: seq<int>, lo: int, hi: int)
    requires |words| > 0 && lo <= 0 <= hi
    requires forall i :: 0 <= i < |words| ==> lo <= words[i] <= hi
    ensures ParseProgram(Format(words) + "\n", lo, hi) == Success(words)
  {
    var n := |words|;
    var tokens := seq(n, i requires 0 <= i < n => ShowInt(words[i]));
    var padded := tokens[..n - 1] + [tokens[n - 1] + "\n"];
    JoinExtendLast(tokens, ',', "\n");
    assert Join(padded, ',') == Format(words) + "\n";
    forall i | 0 <= i < n
      ensures ',' !in padded[i]
      ensures ParseInteger(Trim(padded[i]), lo, hi) == Some(words[i])
    {
      if i == n - 1 {
        RenderedLastWord(words[i], lo, hi);
      } else {
        assert padded[i] == ShowInt(words[i]);
        RenderedWord(words[i], lo, hi);
      }
    }
    SplitJoin(padded, ',');
    ParseTokensCharacterized(padded, lo, hi);
    var r := ParseTokens(padded, lo, hi);
    assert r.Success?;
    assert r.value == words;
  }

  /** Removes the '\r' of a "\r\n" line ending. */
  function StripCr(line: string): string
  {
    if |line| > 0 && line[|line| - 1] == '\r' then line[..|line| - 1] else line
  }

  /** `s.lines()`: the pieces between '\n' characters, each without the '\r' of a "\r\n" ending;
      a final empty piece (the text ends with '\n', or is empty) is not a line. */
  function Lines(s: string): (lines: seq<string>)
    ensures forall i :: 0 <= i < |lines| ==> '\n' !in lines[i]
  {
    var pieces := Split(s, '\n');
    var ended := seq(|pieces| - 1, i requires 0 <= i < |pieces| - 1 => StripCr(pieces[i]));
    if pieces[|pieces| - 1] == [] then ended else ended + [pieces[|pieces| - 1]]
  }

  /** Lines that hold no line break and no trailing '\r', each written with a final '\n', read back. */
  lemma LinesOfText(lines: seq<string>)
    requires forall i :: 0 <= i < |lines| ==> '\n' !in lines[i] && (lines[i] == [] || lines[i][|lines[i]| - 1] != '\r')
    ensures Lines(Join(lines + [[]], '\n')) == lines
  {
    var pieces := lines + [[]];
    SplitJoin(pieces, '\n');
  }
}
