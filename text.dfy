/** String helpers with JavaScript's semantics: `trim`, `search(/\S|$/)`,
    `split('\n')` and the blank-line filter the parser applies to its input. */
module Text {

  /** The characters JavaScript's `String.prototype.trim` removes and `\s` matches:
      WhiteSpace and LineTerminator of ECMAScript, including the Unicode space separators. */
  predicate IsWhitespace(c: char) {
    || c == '\t' || c == '\n' || c == '\U{000B}' || c == '\U{000C}' || c == '\r' || c == ' '
    || c == '\U{00A0}' || c == '\U{1680}' || ('\U{2000}' <= c <= '\U{200A}')
    || c == '\U{2028}' || c == '\U{2029}' || c == '\U{202F}' || c == '\U{205F}'
    || c == '\U{3000}' || c == '\U{FEFF}'
  }

  predicate AllWhitespace(s: string) {
    forall i :: 0 <= i < |s| ==> IsWhitespace(s[i])
  }

  /** Neither starts nor ends with whitespace: what `trim` returns. */
  predicate Bare(s: string) {
    s == [] || (!IsWhitespace(s[0]) && !IsWhitespace(s[|s| - 1]))
  }

  /** `s.search(/\S|$/)`: the index of the first non-whitespace character, or |s|. */
  function LeadingWhitespace(s: string): (k: nat)
    ensures k <= |s|
    ensures AllWhitespace(s[..k])
    ensures k < |s| ==> !IsWhitespace(s[k])
  {
    if |s| > 0 && IsWhitespace(s[0]) then 1 + LeadingWhitespace(s[1..]) else 0
  }

  /** The number of whitespace characters at the end of s. */
  function TrailingWhitespace(s: string): (k: nat)
    ensures k <= |s|
    ensures AllWhitespace(s[|s| - k..])
    ensures k < |s| ==> !IsWhitespace(s[|s| - k - 1])
  {
    if |s| > 0 && IsWhitespace(s[|s| - 1]) then 1 + TrailingWhitespace(s[..|s| - 1]) else 0
  }

  /** Drops the leading whitespace (`trimStart`). */
  function TrimStart(s: string): string {
    s[LeadingWhitespace(s)..]
  }

  function TrimEnd(s: string): string {
    s[..|s| - TrailingWhitespace(s)]
  }

  /** `s.trim()`. */
  function Trim(s: string): (r: string)
    ensures Bare(r)
    ensures r == [] <==> AllWhitespace(s)
  {
    var t := TrimStart(s);
    assert AllWhitespace(s) ==> t == [];
    assert t != [] ==> !IsWhitespace(t[0]);
    TrimEnd(t)
  }

  lemma {:induction false} LeadingOfPadded(a: string, x: string)
    requires AllWhitespace(a)
    requires x != [] && !IsWhitespace(x[0])
    ensures LeadingWhitespace(a + x) == |a|
    decreases |a|
  {
    if a != [] {
      assert (a + x)[1..] == a[1..] + x;
      LeadingOfPadded(a[1..], x);
    } else {
      assert a + x == x;
    }
  }

  lemma {:induction false} TrailingOfPadded(x: string, b: string)
    requires AllWhitespace(b)
    requires x != [] && !IsWhitespace(x[|x| - 1])
    ensures TrailingWhitespace(x + b) == |b|
    decreases |b|
  {
    if b != [] {
      assert (x + b)[..|x + b| - 1] == x + b[..|b| - 1];
      TrailingOfPadded(x, b[..|b| - 1]);
    } else {
      assert x + b == x;
    }
  }

  /** `trim` removes exactly the surrounding whitespace: it is the inverse of padding a bare string. */
  lemma TrimOfPadded(a: string, x: string, b: string)
    requires AllWhitespace(a) && AllWhitespace(b) && Bare(x)
    ensures Trim(a + x + b) == x
  {
    if x == [] {
      assert AllWhitespace(a + x + b) by {
        forall i | 0 <= i < |a + x + b| ensures IsWhitespace((a + x + b)[i]) {
          if i < |a| { assert (a + x + b)[i] == a[i]; } else { assert (a + x + b)[i] == b[i - |a|]; }
        }
      }
    } else {
      assert a + x + b == a + (x + b);
      assert (x + b)[0] == x[0];
      LeadingOfPadded(a, x + b);
      assert TrimStart(a + x + b) == x + b;
      TrailingOfPadded(x, b);
    }
  }

  /** `trim` leaves a bare string as it is. */
  lemma TrimBare(x: string)
    requires Bare(x)
    ensures Trim(x) == x
  {
    TrimOfPadded([], x, []);
    assert [] + x + [] == x;
  }

  lemma AllWhitespaceConcat(a: string, b: string)
    requires AllWhitespace(a) && AllWhitespace(b)
    ensures AllWhitespace(a + b)
  {
    forall i | 0 <= i < |a + b| ensures IsWhitespace((a + b)[i]) {
      if i < |a| { assert (a + b)[i] == a[i]; } else { assert (a + b)[i] == b[i - |a|]; }
    }
  }

  /** `s.split('\n')`: the pieces between line feeds, in order; there is always at least one. */
  function Split(s: string): (r: seq<string>)
    ensures |r| >= 1
    ensures forall i :: 0 <= i < |r| ==> '\n' !in r[i]
  {
    if |s| == 0 then [""]
    else
      var rest := Split(s[1..]);
      if s[0] == '\n' then [""] + rest
      else [[s[0]] + rest[0]] + rest[1..]
  }

  /** `lines.join('\n')`. */
  function Join(lines: seq<string>): string
    requires |lines| >= 1
  {
    if |lines| == 1 then lines[0] else lines[0] + "\n" + Join(lines[1..])
  }

  /** Joining the pieces back with line feeds gives the text that was split. */
  lemma {:induction false} JoinSplit(s: string)
    ensures Join(Split(s)) == s
    decreases |s|
  {
    if |s| > 0 {
      var rest := Split(s[1..]);
      JoinSplit(s[1..]);
      if s[0] == '\n' {
        assert Split(s)[1..] == rest;
      } else {
        var r := Split(s);
        if |rest| == 1 {
          assert r == [[s[0]] + rest[0]];
        } else {
          assert r[1..] == rest[1..];
          assert Join(rest) == rest[0] + "\n" + Join(rest[1..]);
        }
      }
      assert s == [s[0]] + s[1..];
    }
  }

  /** Splitting a join of pieces without line feeds gives the pieces back. */
  lemma {:induction false} SplitJoin(lines: seq<string>)
    requires |lines| >= 1
    requires forall i :: 0 <= i < |lines| ==> '\n' !in lines[i]
    ensures Split(Join(lines)) == lines
    decreases |lines|, |lines[0]|
  {
    var head := lines[0];
    if head == [] {
      if |lines| > 1 {
        SplitJoin(lines[1..]);
        assert Join(lines) == "\n" + Join(lines[1..]);
        assert ("\n" + Join(lines[1..]))[1..] == Join(lines[1..]);
        assert lines == [""] + lines[1..];
      }
    } else {
      var lines' := [head[1..]] + lines[1..];
      assert lines'[1..] == lines[1..];
      forall i | 0 <= i < |lines'| ensures '\n' !in lines'[i] {
        if i == 0 {
          assert forall c :: c in head[1..] ==> c in head;
        }
      }
      SplitJoin(lines');
      var j := Join(lines);
      assert j == [head[0]] + Join(lines') by {
        if |lines| == 1 {
          assert head == [head[0]] + head[1..];
        } else {
          assert head == [head[0]] + head[1..];
          assert Join(lines') == head[1..] + "\n" + Join(lines[1..]);
        }
      }
      assert j[0] == head[0] && j[1..] == Join(lines');
      assert head[0] != '\n' by { assert head[0] in head; }
      assert Split(j) == [[head[0]] + head[1..]] + lines[1..];
      assert head == [head[0]] + head[1..];
      assert lines == [head] + lines[1..];
    }
  }

  /** A joined text is all whitespace exactly when every piece is (a line feed is whitespace). */
  lemma {:induction false} JoinAllWhitespace(lines: seq<string>)
    requires |lines| >= 1
    ensures AllWhitespace(Join(lines)) <==> forall i :: 0 <= i < |lines| ==> AllWhitespace(lines[i])
    decreases |lines|
  {
    if |lines| > 1 {
      JoinAllWhitespace(lines[1..]);
      var j := Join(lines);
      var h := lines[0];
      var t := Join(lines[1..]);
      assert j == h + "\n" + t;
      if AllWhitespace(j) {
        assert AllWhitespace(h) by {
          forall i | 0 <= i < |h| ensures IsWhitespace(h[i]) { assert h[i] == j[i]; }
        }
        assert AllWhitespace(t) by {
          forall i | 0 <= i < |t| ensures IsWhitespace(t[i]) { assert t[i] == j[|h| + 1 + i]; }
        }
        forall i | 0 <= i < |lines| ensures AllWhitespace(lines[i]) {
          if i > 0 { assert lines[i] == lines[1..][i - 1]; }
        }
      }
      if forall i :: 0 <= i < |lines| ==> AllWhitespace(lines[i]) {
        assert AllWhitespace(h);
        assert forall i :: 0 <= i < |lines[1..]| ==> AllWhitespace(lines[1..][i]) by {
          forall i | 0 <= i < |lines[1..]| ensures AllWhitespace(lines[1..][i]) {
            assert lines[1..][i] == lines[i + 1];
          }
        }
        forall i | 0 <= i < |j| ensures IsWhitespace(j[i]) {
          if i < |h| { assert j[i] == h[i]; }
          else if i == |h| { assert j[i] == '\n'; }
          else { assert j[i] == t[i - |h| - 1]; }
        }
      }
    }
  }

  /** A text is all whitespace exactly when every line of it is. */
  lemma SplitAllWhitespace(s: string)
    ensures AllWhitespace(s) <==> forall i :: 0 <= i < |Split(s)| ==> AllWhitespace(Split(s)[i])
  {
    JoinSplit(s);
    JoinAllWhitespace(Split(s));
  }

  /** `lines.filter(line => line.trim())`: the lines that are not blank, in order. */
  function NonBlank(lines: seq<string>): (r: seq<string>)
    ensures |r| <= |lines|
    ensures forall i :: 0 <= i < |r| ==> !AllWhitespace(r[i])
    ensures forall l :: l in r <==> l in lines && !AllWhitespace(l)
  {
    if lines == [] then []
    else (if Trim(lines[0]) != [] then [lines[0]] else []) + NonBlank(lines[1..])
  }

  /** The filter works line by line: filtering two runs of lines one after the other gives the
      two filtered runs one after the other, so order and repeated lines are kept. */
  lemma {:induction false} NonBlankConcat(a: seq<string>, b: seq<string>)
    ensures NonBlank(a + b) == NonBlank(a) + NonBlank(b)
    decreases |a|
  {
    if a == [] {
      assert a + b == b;
    } else {
      var h := if Trim(a[0]) != [] then [a[0]] else [];
      assert (a + b)[0] == a[0];
      assert (a + b)[1..] == a[1..] + b;
      assert NonBlank(a + b) == h + NonBlank(a[1..] + b);
      assert NonBlank(a) == h + NonBlank(a[1..]);
      NonBlankConcat(a[1..], b);
      ConcatAssoc(h, NonBlank(a[1..]), NonBlank(b));
    }
  }

  /** Concatenation regroups; the other modules' regrouping steps use it too. */
  lemma ConcatAssoc<T>(a: seq<T>, b: seq<T>, c: seq<T>)
    ensures a + (b + c) == a + b + c
  {
  }

  /** A single line is kept exactly when it is not all whitespace. */
  lemma NonBlankOne(line: string)
    ensures NonBlank([line]) == (if AllWhitespace(line) then [] else [line])
  {
    assert [line][1..] == [];
  }

  /** The filter leaves nothing exactly when the text is all whitespace. */
  lemma NothingLeftIffAllWhitespace(text: string)
    ensures NonBlank(Split(text)) == [] <==> AllWhitespace(text)
  {
    var lines := Split(text);
    SplitAllWhitespace(text);
    if NonBlank(lines) == [] {
      forall i | 0 <= i < |lines| ensures AllWhitespace(lines[i]) {
        assert lines[i] in lines;
      }
    } else {
      assert NonBlank(lines)[0] in NonBlank(lines);
    }
  }
}
