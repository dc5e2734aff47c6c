/** The two string operations of the standard library that `get_cargo_dir`
    relies on: `str::split` with a string separator (leftmost, non-overlapping
    matches) and `str::lines`. */
module Text {
  import opened RtResult

  /** `sep` occurs in `s` starting at index `j`. */
  predicate MatchAt(s: string, sep: string, j: nat)
  {
    j + |sep| <= |s| && s[j..j + |sep|] == sep
  }

  /** The leftmost occurrence of `sep` in `s` at or after index `from`. */
  function IndexFrom(s: string, sep: string, from: nat): (r: Option<nat>)
    ensures r.Some? ==> from <= r.value && MatchAt(s, sep, r.value)
    ensures r.Some? ==> forall j: nat :: from <= j < r.value ==> !MatchAt(s, sep, j)
    ensures r.None? ==> forall j: nat :: from <= j ==> !MatchAt(s, sep, j)
    decreases |s| - from
  {
    if from + |sep| > |s| then None
    else if MatchAt(s, sep, from) then Some(from)
    else IndexFrom(s, sep, from + 1)
  }

  /** The leftmost occurrence of `sep` in `s`. */
  function IndexOf(s: string, sep: string): (r: Option<nat>)
    ensures r.Some? ==> MatchAt(s, sep, r.value) && forall j: nat :: j < r.value ==> !MatchAt(s, sep, j)
    ensures r.None? ==> forall j: nat :: !MatchAt(s, sep, j)
  {
    IndexFrom(s, sep, 0)
  }

  /** An occurrence with no occurrence before it is the one `IndexOf` finds. */
  lemma IndexOfIsFirst(s: string, sep: string, i: nat)
    requires MatchAt(s, sep, i)
    requires forall j: nat :: j < i ==> !MatchAt(s, sep, j)
    ensures IndexOf(s, sep) == Some(i)
  {
  }

  /** `s.split(sep).collect()`: the pieces between leftmost, non-overlapping
      occurrences of `sep`. */
  function Split(s: string, sep: string): (parts: seq<string>)
    requires sep != ""
    ensures |parts| >= 1
    decreases |s|
  {
    match IndexOf(s, sep)
    case None => [s]
    case Some(i) => [s[..i]] + Split(s[i + |sep|..], sep)
  }

  /** The inverse of `Split`: the pieces with `sep` between each two. */
  function Join(parts: seq<string>, sep: string): string
    requires |parts| >= 1
  {
    if |parts| == 1 then parts[0] else parts[0] + sep + Join(parts[1..], sep)
  }

  lemma JoinCons(first: string, rest: seq<string>, sep: string)
    requires |rest| >= 1
    ensures Join([first] + rest, sep) == first + sep + Join(rest, sep)
  {
    assert ([first] + rest)[1..] == rest;
  }

  /** One step of `Split`: the piece before the leftmost separator, then the
      split of the rest. */
  lemma SplitStep(s: string, sep: string)
    requires sep != "" && IndexOf(s, sep).Some?
    ensures var i := IndexOf(s, sep).value;
      && Split(s, sep) == [s[..i]] + Split(s[i + |sep|..], sep)
      && s == s[..i] + sep + s[i + |sep|..]
  {
    var i := IndexOf(s, sep).value;
    assert s[i..i + |sep|] == sep;
    assert s == s[..i] + s[i..i + |sep|] + s[i + |sep|..];
  }

  /** Splitting loses nothing: joining the pieces gives the input back. */
  lemma {:induction false} JoinSplit(s: string, sep: string)
    requires sep != ""
    ensures Join(Split(s, sep), sep) == s
    decreases |s|
  {
    if IndexOf(s, sep).Some? {
      var i := IndexOf(s, sep).value;
      var rest := s[i + |sep|..];
      SplitStep(s, sep);
      JoinSplit(rest, sep);
      JoinCons(s[..i], Split(rest, sep), sep);
    }
  }

  /** A prefix that ends before the first occurrence holds no occurrence. */
  lemma NoMatchBefore(s: string, sep: string, i: nat)
    requires sep != "" && i <= |s|
    requires forall j: nat :: j < i ==> !MatchAt(s, sep, j)
    ensures IndexOf(s[..i], sep) == None
  {
    var r := IndexOf(s[..i], sep);
    if r.Some? {
      var j := r.value;
      assert s[..i][j..j + |sep|] == s[j..j + |sep|];
      assert MatchAt(s, sep, j);
    }
  }

  /** No piece of a split contains the separator. */
  lemma {:induction false} SplitPartsHaveNoSeparator(s: string, sep: string)
    requires sep != ""
    ensures forall k :: 0 <= k < |Split(s, sep)| ==> IndexOf(Split(s, sep)[k], sep) == None
    decreases |s|
  {
    match IndexOf(s, sep)
    case None =>
    case Some(i) =>
      var rest := s[i + |sep|..];
      SplitPartsHaveNoSeparator(rest, sep);
      NoMatchBefore(s, sep, i);
      var parts := Split(s, sep);
      assert parts == [s[..i]] + Split(rest, sep);
      forall k | 0 <= k < |parts| ensures IndexOf(parts[k], sep) == None {
        if k > 0 { assert parts[k] == Split(rest, sep)[k - 1]; }
      }
  }

  /** A split yields exactly two pieces if and only if the separator occurs,
      and no further occurrence follows the first one; the second piece is then
      everything after that occurrence. */
  lemma SplitInTwo(s: string, sep: string)
    requires sep != ""
    ensures |Split(s, sep)| == 2 <==>
      IndexOf(s, sep).Some? && IndexOf(s[IndexOf(s, sep).value + |sep|..], sep).None?
    ensures |Split(s, sep)| == 2 ==> Split(s, sep)[1] == s[IndexOf(s, sep).value + |sep|..]
  {
  }

  /** A line without the separator is one piece. */
  lemma NoSeparatorOnePiece(s: string, sep: string)
    requires sep != ""
    requires forall j: nat :: !MatchAt(s, sep, j)
    ensures Split(s, sep) == [s]
  {
  }

  /** Two occurrences that do not overlap give at least three pieces, even
      when the leftmost occurrence overlaps the first of them. */
  lemma TwoSeparatorsThreePieces(s: string, sep: string, i: nat, j: nat)
    requires sep != ""
    requires MatchAt(s, sep, i) && MatchAt(s, sep, j) && i + |sep| <= j
    ensures |Split(s, sep)| >= 3
  {
    var first := IndexOf(s, sep);
    assert first.Some?;
    var k := first.value;
    assert k <= i;
    var rest := s[k + |sep|..];
    assert Split(s, sep) == [s[..k]] + Split(rest, sep);
    var j' := j - (k + |sep|);
    assert rest[j'..j' + |sep|] == s[j..j + |sep|];
    assert MatchAt(rest, sep, j');
    var second := IndexOf(rest, sep);
    assert second.Some?;
    var rest' := rest[second.value + |sep|..];
    assert Split(rest, sep) == [rest[..second.value]] + Split(rest', sep);
  }

  /** One trailing carriage return removed. */
  function StripCR(line: string): string
  {
    if |line| > 0 && line[|line| - 1] == '\r' then line[..|line| - 1] else line
  }

  /** `str::split_terminator`: the pieces of a split without an empty last piece. */
  function DropEmptyLast(parts: seq<string>): seq<string>
    requires |parts| >= 1
  {
    if parts[|parts| - 1] == "" then parts[..|parts| - 1] else parts
  }

  /** Every piece with one trailing '\r' removed. */
  function StripEach(pieces: seq<string>): (lines: seq<string>)
  {
    seq(|pieces|, k requires 0 <= k < |pieces| => StripCR(pieces[k]))
  }

  /** `str::lines` as the standard library of the source's era defines it:
      the pieces of `s` split at '\n', without the empty piece that follows a
      final '\n', each with one trailing '\r' removed. */
  function Lines(s: string): seq<string>
  {
    StripEach(DropEmptyLast(Split(s, "\n")))
  }

  /** The text made of `lines`, each followed by '\n'. */
  function JoinLines(lines: seq<string>): string
  {
    if lines == [] then "" else lines[0] + "\n" + JoinLines(lines[1..])
  }

  /** A string with no occurrence of the one-character separator "\n". */
  lemma NoNewlineNoMatch(s: string)
    ensures IndexOf(s, "\n") == None <==> '\n' !in s
  {
    if '\n' in s {
      var j :| 0 <= j < |s| && s[j] == '\n';
      assert MatchAt(s, "\n", j);
    }
    if IndexOf(s, "\n").Some? {
      var j := IndexOf(s, "\n").value;
      assert s[j..j + 1] == "\n";
      assert s[j] == '\n';
    }
  }

  /** No line holds a line break. */
  lemma LinesHaveNoNewline(s: string)
    ensures forall k :: 0 <= k < |Lines(s)| ==> '\n' !in Lines(s)[k]
  {
    var parts := Split(s, "\n");
    SplitPartsHaveNoSeparator(s, "\n");
    var pieces := DropEmptyLast(parts);
    forall k | 0 <= k < |pieces| ensures '\n' !in StripCR(pieces[k]) {
      assert pieces[k] == parts[k];
      NoNewlineNoMatch(parts[k]);
      assert StripCR(pieces[k]) <= pieces[k];
    }
  }

  predicate PlainLine(line: string)
  {
    '\n' !in line && (|line| == 0 || line[|line| - 1] != '\r')
  }

  /** The first '\n' of `line + "\n" + rest` is the one after `line`. */
  lemma NewlineAfter(line: string, rest: string)
    requires '\n' !in line
    ensures IndexOf(line + "\n" + rest, "\n") == Some(|line|)
    ensures (line + "\n" + rest)[..|line|] == line
    ensures (line + "\n" + rest)[|line| + 1..] == rest
  {
    var s := line + "\n" + rest;
    assert s[|line|..|line| + 1] == "\n";
    forall j: nat | j < |line| ensures !MatchAt(s, "\n", j) {
      assert s[j] == line[j];
    }
    IndexOfIsFirst(s, "\n", |line|);
  }

  lemma {:induction false} SplitJoinLines(lines: seq<string>)
    requires forall k :: 0 <= k < |lines| ==> PlainLine(lines[k])
    ensures Split(JoinLines(lines), "\n") == lines + [""]
  {
    if lines == [] {
      assert IndexOf("", "\n") == None;
    } else {
      var line := lines[0];
      var rest := JoinLines(lines[1..]);
      assert JoinLines(lines) == line + "\n" + rest;
      assert PlainLine(line);
      NewlineAfter(line, rest);
      SplitStep(JoinLines(lines), "\n");
      SplitJoinLines(lines[1..]);
      assert lines == [line] + lines[1..];
    }
  }

  /** Lines without line breaks or a trailing '\r', each written with a
      following '\n', are read back by `Lines` exactly. */
  lemma LinesRoundTrip(lines: seq<string>)
    requires forall k :: 0 <= k < |lines| ==> PlainLine(lines[k])
    ensures Lines(JoinLines(lines)) == lines
  {
    var text := JoinLines(lines);
    SplitJoinLines(lines);
    var parts := Split(text, "\n");
    assert parts == lines + [""];
    assert parts[..|lines|] == lines;
    var pieces := DropEmptyLast(parts);
    assert pieces == lines;
    StripEachPlain(lines);
  }

  lemma StripEachPlain(lines: seq<string>)
    requires forall k :: 0 <= k < |lines| ==> PlainLine(lines[k])
    ensures StripEach(lines) == lines
  {
    var result := StripEach(lines);
    forall k | 0 <= k < |lines| ensures result[k] == lines[k] {
      assert PlainLine(lines[k]);
    }
  }
}
