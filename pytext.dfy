/**
  Python `str` semantics used by the bot, over a restricted alphabet: ASCII plus the
  Spanish letters á é í ó ú ñ and their capitals. Inside this alphabet the cased
  characters (those `str.lower`, `str.upper` and `str.title` act on) are exactly the
  letters, `\d` is 0-9, `\w` is letters, digits and `_`, and `\s` / `str.isspace` is the
  ASCII whitespace set. Every other character is treated as an uncased, non-word,
  non-space symbol.
*/
module PyText {
  import opened Wrappers

  // ---------------------------------------------------------------------------
  // Character classes

  predicate IsAsciiUpper(c: char) { 'A' <= c <= 'Z' }

  predicate IsAsciiLower(c: char) { 'a' <= c <= 'z' }

  predicate IsAccentedUpper(c: char) {
    c == 'Á' || c == 'É' || c == 'Í' || c == 'Ó' || c == 'Ú' || c == 'Ñ'
  }

  predicate IsAccentedLower(c: char) {
    c == 'á' || c == 'é' || c == 'í' || c == 'ó' || c == 'ú' || c == 'ñ'
  }

  predicate IsUpper(c: char) { IsAsciiUpper(c) || IsAccentedUpper(c) }

  predicate IsLower(c: char) { IsAsciiLower(c) || IsAccentedLower(c) }

  /** The cased characters; also the class `[a-zA-ZáéíóúÁÉÍÓÚñÑ]`. */
  predicate IsLetter(c: char) { IsUpper(c) || IsLower(c) }

  /** `\d` */
  predicate IsDigit(c: char) { '0' <= c <= '9' }

  /** `\w` */
  predicate IsWordChar(c: char) { IsLetter(c) || IsDigit(c) || c == '_' }

  /** `\s`, and `str.isspace` on one character: tab, LF, VT, FF, CR, the four
      information separators 0x1C-0x1F, and space. */
  predicate IsSpace(c: char) {
    c == ' ' || '\t' <= c <= '\r' || 28 <= c as int <= 31
  }

  function Lower(c: char): (r: char)
    ensures IsLetter(c) ==> IsLower(r)
    ensures !IsUpper(c) ==> r == c
    ensures IsLetter(r) <==> IsLetter(c)
  {
    if IsAsciiUpper(c) then (c as int + 32) as char
    else if c == 'Á' then 'á'
    else if c == 'É' then 'é'
    else if c == 'Í' then 'í'
    else if c == 'Ó' then 'ó'
    else if c == 'Ú' then 'ú'
    else if c == 'Ñ' then 'ñ'
    else c
  }

  function Upper(c: char): (r: char)
    ensures IsLetter(c) ==> IsUpper(r)
    ensures !IsLower(c) ==> r == c
    ensures IsLetter(r) <==> IsLetter(c)
  {
    if IsAsciiLower(c) then (c as int - 32) as char
    else if c == 'á' then 'Á'
    else if c == 'é' then 'É'
    else if c == 'í' then 'Í'
    else if c == 'ó' then 'Ó'
    else if c == 'ú' then 'Ú'
    else if c == 'ñ' then 'Ñ'
    else c
  }

  // ---------------------------------------------------------------------------
  // Case mappings on strings

  /** `str.lower()` */
  function LowerStr(s: string): (r: string)
    ensures |r| == |s|
    ensures forall k :: 0 <= k < |s| ==> r[k] == Lower(s[k])
  {
    seq(|s|, k requires 0 <= k < |s| => Lower(s[k]))
  }

  /** `str.title()`: a cased character is upper-cased when the character before it is
      not cased (or it is first), and lower-cased otherwise; others are kept. */
  function Title(s: string): (r: string)
    ensures |r| == |s|
    ensures forall k {:trigger r[k]} :: 0 <= k < |s| ==> IsLetter(r[k]) == IsLetter(s[k])
    ensures forall k {:trigger r[k]} :: 0 <= k < |s| && !IsLetter(s[k]) ==> r[k] == s[k]
  {
    seq(|s|, k requires 0 <= k < |s| => if k > 0 && IsLetter(s[k - 1]) then Lower(s[k]) else Upper(s[k]))
  }

  /** A string of digits is its own title case. */
  lemma TitleOfDigits(w: string)
    requires forall k :: 0 <= k < |w| ==> IsDigit(w[k])
    ensures Title(w) == w
  {
  }

  /** Title-casing changes only letters, so it keeps single spacing and commas. */
  lemma TitleKeepsLayout(t: string)
    requires SingleSpaced(t)
    ensures SingleSpaced(Title(t))
    ensures forall k :: 0 <= k < |t| ==> (Title(t)[k] == ',' <==> t[k] == ',')
  {
    var r := Title(t);
    forall k | 0 <= k < |r| && IsSpace(r[k])
      ensures r[k] == ' ' && 0 < k < |r| - 1 && r[k + 1] != ' '
    {
      assert r[k] == t[k];
      assert t[k + 1] != ' ' ==> r[k + 1] != ' ';
    }
  }

  /** `str.capitalize()`: first character upper-cased, the rest lower-cased. */
  function Capitalize(s: string): (r: string)
    ensures |r| == |s|
  {
    if s == [] then [] else [Upper(s[0])] + LowerStr(s[1..])
  }

  // ---------------------------------------------------------------------------
  // Substrings

  predicate StartsWith(s: string, w: string) {
    |w| <= |s| && s[..|w|] == w
  }

  /** Python's `w in s` on strings. */
  predicate Contains(s: string, w: string)
    decreases |s|
  {
    StartsWith(s, w) || (s != [] && Contains(s[1..], w))
  }

  lemma {:induction false} ContainsAt(s: string, w: string, i: nat)
    requires i + |w| <= |s| && s[i..i + |w|] == w
    ensures Contains(s, w)
  {
    if i > 0 {
      assert s[1..][i - 1..i - 1 + |w|] == s[i..i + |w|];
      ContainsAt(s[1..], w, i - 1);
    }
  }

  /** A string that contains `long` contains every prefix of `long`. */
  lemma {:induction false} ContainsPrefix(s: string, long: string, short: string)
    requires StartsWith(long, short) && Contains(s, long)
    ensures Contains(s, short)
    decreases |s|
  {
    if StartsWith(s, long) {
      assert s[..|short|] == long[..|short|];
    } else {
      ContainsPrefix(s[1..], long, short);
    }
  }

  lemma {:induction false} ContainsInConcat(a: string, b: string, c: string)
    ensures Contains(a + b + c, b)
  {
    var s := a + b + c;
    assert s[|a|..|a| + |b|] == b;
    ContainsAt(s, b, |a|);
  }

  /** `s.replace(p, '')` for a non-empty `p`: a left-to-right scan that drops every
      non-overlapping occurrence of `p`. */
  function RemoveAll(s: string, p: string): (r: string)
    requires p != []
    ensures |r| <= |s|
    decreases |s|
  {
    if |s| < |p| then s
    else if s[..|p|] == p then RemoveAll(s[|p|..], p)
    else [s[0]] + RemoveAll(s[1..], p)
  }

  /** Deleting a pattern whose first character does not occur changes nothing. */
  lemma {:induction false} RemoveAbsent(s: string, p: string)
    requires p != []
    requires forall k :: 0 <= k < |s| ==> s[k] != p[0]
    ensures RemoveAll(s, p) == s
    decreases |s|
  {
    if |s| >= |p| {
      assert s[..|p|][0] != p[0];
      RemoveAbsent(s[1..], p);
      assert [s[0]] + s[1..] == s;
    }
  }

  // ---------------------------------------------------------------------------
  // Filtering, splitting and joining

  /** `re.sub('[^<class>]', '', s)`: the characters of `s` satisfying `keep`, in order. */
  function Keep(s: string, keep: char -> bool): (r: string)
    ensures |r| <= |s|
    ensures forall k :: 0 <= k < |r| ==> keep(r[k]) && r[k] in s
    ensures (forall k :: 0 <= k < |s| ==> keep(s[k])) ==> r == s
  {
    if s == [] then []
    else (if keep(s[0]) then [s[0]] else []) + Keep(s[1..], keep)
  }

  predicate NoSpace(w: string) {
    forall k :: 0 <= k < |w| ==> !IsSpace(w[k])
  }

  /** The words `str.split()` returns: non-empty, free of whitespace. */
  predicate AreWords(ws: seq<string>) {
    forall i :: 0 <= i < |ws| ==> ws[i] != [] && NoSpace(ws[i])
  }

  /** Text whose only whitespace characters are interior single spaces. */
  predicate SingleSpaced(s: string) {
    forall k {:trigger IsSpace(s[k])} :: 0 <= k < |s| && IsSpace(s[k]) ==>
      s[k] == ' ' && 0 < k < |s| - 1 && s[k + 1] != ' '
  }

  function DropSpaces(s: string): (r: string)
    ensures |r| <= |s| && r == s[|s| - |r|..]
    ensures r == [] || !IsSpace(r[0])
    ensures forall k :: 0 <= k < |s| - |r| ==> IsSpace(s[k])
  {
    if s != [] && IsSpace(s[0]) then DropSpaces(s[1..]) else s
  }

  function WordLength(s: string): (n: nat)
    ensures n <= |s|
    ensures forall k :: 0 <= k < n ==> !IsSpace(s[k])
    ensures n == |s| || IsSpace(s[n])
  {
    if s == [] || IsSpace(s[0]) then 0 else 1 + WordLength(s[1..])
  }

  /** `str.split()` with no separator: the maximal runs of non-whitespace. */
  function Split(s: string): (ws: seq<string>)
    ensures AreWords(ws)
    decreases |s|
  {
    if s == [] then []
    else if IsSpace(s[0]) then Split(s[1..])
    else
      var n := WordLength(s);
      [s[..n]] + Split(s[n..])
  }

  /** A property of every non-space character of `s` holds of every character of its words. */
  lemma {:induction false} SplitKeeps(s: string, p: char -> bool)
    requires forall k :: 0 <= k < |s| && !IsSpace(s[k]) ==> p(s[k])
    ensures forall i, k :: 0 <= i < |Split(s)| && 0 <= k < |Split(s)[i]| ==> p(Split(s)[i][k])
    decreases |s|
  {
    if s != [] {
      var n := if IsSpace(s[0]) then 1 else WordLength(s);
      var rest := s[n..];
      assert forall k :: 0 <= k < |rest| ==> rest[k] == s[n + k];
      SplitKeeps(rest, p);
      if !IsSpace(s[0]) {
        var ws := Split(s);
        var tail := Split(rest);
        assert ws == [s[..n]] + tail;
        forall i, k | 0 <= i < |ws| && 0 <= k < |ws[i]|
          ensures p(ws[i][k])
        {
          if i == 0 {
            assert ws[0][k] == s[k];
          } else {
            assert ws[i] == tail[i - 1];
          }
        }
      }
    }
  }

  lemma SplitLeadingSpace(t: string)
    ensures Split(" " + t) == Split(t)
  {
    assert (" " + t)[1..] == t;
  }

  /** A whole word followed by a space or nothing is split off first. */
  lemma {:induction false} SplitCons(w: string, rest: string)
    requires w != [] && NoSpace(w)
    requires rest == [] || IsSpace(rest[0])
    ensures Split(w + rest) == [w] + Split(rest)
  {
    WordLengthOfWord(w, rest);
    var s := w + rest;
    assert s[0] == w[0];
    assert s[|w|..] == rest;
  }

  /** `' '.join(ws)` */
  function Join(ws: seq<string>): (r: string)
    ensures ws == [] ==> r == []
  {
    if ws == [] then [] else if |ws| == 1 then ws[0] else ws[0] + " " + Join(ws[1..])
  }

  /** Joining words gives single-spaced text. */
  lemma {:induction false} JoinOfWords(ws: seq<string>)
    requires AreWords(ws)
    ensures SingleSpaced(Join(ws))
    ensures ws != [] ==> Join(ws) != [] && !IsSpace(Join(ws)[0])
  {
    if |ws| > 1 {
      JoinOfWords(ws[1..]);
      var tail := Join(ws[1..]);
      var r := ws[0] + " " + tail;
      assert r == Join(ws);
      assert r[0] == ws[0][0];
      forall k | 0 <= k < |r| && IsSpace(r[k])
        ensures r[k] == ' ' && 0 < k < |r| - 1 && r[k + 1] != ' '
      {
        if k > |ws[0]| {
          assert r[k] == tail[k - |ws[0]| - 1];
          assert IsSpace(tail[k - |ws[0]| - 1]);
          assert r[k + 1] == tail[k - |ws[0]|];
        } else if k == |ws[0]| {
          assert r[k + 1] == tail[0];
        } else {
          assert false;
        }
      }
    } else if |ws| == 1 {
      assert Join(ws) == ws[0];
    }
  }

  /** A property of every character of every word holds of every non-space character
      of their join. */
  lemma {:induction false} JoinKeeps(ws: seq<string>, p: char -> bool)
    requires forall i, k :: 0 <= i < |ws| && 0 <= k < |ws[i]| ==> p(ws[i][k])
    ensures forall k :: 0 <= k < |Join(ws)| ==> Join(ws)[k] == ' ' || p(Join(ws)[k])
  {
    if |ws| > 1 {
      JoinKeeps(ws[1..], p);
      var tail := Join(ws[1..]);
      var r := ws[0] + " " + tail;
      assert r == Join(ws);
      assert forall k :: 0 <= k < |ws[0]| ==> r[k] == ws[0][k];
      assert forall k :: |ws[0]| < k < |r| ==> r[k] == tail[k - |ws[0]| - 1];
    } else if |ws| == 1 {
      assert Join(ws) == ws[0];
      assert forall k :: 0 <= k < |ws[0]| ==> p(ws[0][k]);
    }
  }

  /** A single word splits to itself. */
  lemma SplitWord(w: string)
    requires w != [] && NoSpace(w)
    ensures Split(w) == [w]
  {
    WordLengthOfWord(w, []);
    assert w + [] == w;
    assert w[|w|..] == [];
  }

  /** A word, a space and text that splits into `rest` split into the word and `rest`. */
  lemma SplitWordThenSpace(w: string, tail: string, rest: seq<string>)
    requires w != [] && NoSpace(w)
    requires Split(tail) == rest
    ensures Split(w + " " + tail) == [w] + rest
  {
    assert w + " " + tail == w + (" " + tail);
    SplitCons(w, " " + tail);
    SplitLeadingSpace(tail);
  }

  /** Splitting joined words gives the words back. */
  lemma {:induction false} SplitJoin(ws: seq<string>)
    requires AreWords(ws)
    ensures Split(Join(ws)) == ws
  {
    if |ws| == 1 {
      SplitWord(ws[0]);
    } else if |ws| > 1 {
      SplitJoin(ws[1..]);
      SplitWordThenSpace(ws[0], Join(ws[1..]), ws[1..]);
      assert ws == [ws[0]] + ws[1..];
    }
  }

  lemma {:induction false} WordLengthOfWord(w: string, rest: string)
    requires NoSpace(w)
    requires rest == [] || IsSpace(rest[0])
    ensures WordLength(w + rest) == |w|
    ensures (w + rest)[..|w|] == w
  {
    if w != [] {
      assert (w + rest)[1..] == w[1..] + rest;
      WordLengthOfWord(w[1..], rest);
    }
  }

  /** One step of `' '.join(s.split())` on text that starts with a word `s[..n]`: the
      word, then either nothing (the rest is blank) or a space and the join of the words
      after the next space. */
  lemma JoinSplitStep(s: string, n: nat)
    requires s != [] && !IsSpace(s[0]) && n == WordLength(s)
    ensures n < |s| ==> IsSpace(s[n])
    ensures Split(s[n..]) == [] ==> Join(Split(s)) == s[..n] && forall k :: n <= k < |s| ==> IsSpace(s[k])
    ensures Split(s[n..]) != [] ==>
      n < |s| && Join(Split(s)) == s[..n] + " " + Join(Split(s[n + 1..]))
  {
    SplitFirstWord(s, n);
    JoinCons(s[..n], Split(s[n..]));
    if Split(s[n..]) == [] {
      BlankAfter(s, n);
    } else {
      SplitSpaceFirst(s[n..]);
      assert s[n..][1..] == s[n + 1..];
    }
  }

  /** Text that starts with a word splits into that word and the words after it. */
  lemma SplitFirstWord(s: string, n: nat)
    requires s != [] && !IsSpace(s[0]) && n == WordLength(s)
    ensures Split(s) == [s[..n]] + Split(s[n..])
  {
  }

  /** What follows index `n` is blank when it splits into no words. */
  lemma BlankAfter(s: string, n: nat)
    requires n <= |s| && Split(s[n..]) == []
    ensures forall k :: n <= k < |s| ==> IsSpace(s[k])
  {
    var rest := s[n..];
    SplitEmpty(rest);
    forall k | n <= k < |s|
      ensures IsSpace(s[k])
    {
      assert s[k] == rest[k - n];
    }
  }

  /** `' '.join([w] + ws)`. */
  lemma JoinCons(w: string, ws: seq<string>)
    ensures Join([w] + ws) == if ws == [] then w else w + " " + Join(ws)
  {
    assert ([w] + ws)[1..] == ws;
  }

  /** Text that starts with whitespace splits as the text after it. */
  lemma SplitSpaceFirst(s: string)
    requires s != [] && IsSpace(s[0])
    ensures Split(s) == Split(s[1..])
  {
  }

  /** `' '.join(s.split())` is no longer than `s`. */
  lemma {:induction false} JoinSplitShorter(s: string)
    ensures |Join(Split(s))| <= |s|
    decreases |s|
  {
    if s != [] {
      if IsSpace(s[0]) {
        JoinSplitShorter(s[1..]);
      } else {
        var n := WordLength(s);
        JoinSplitStep(s, n);
        if Split(s[n..]) != [] {
          JoinSplitShorter(s[n + 1..]);
        }
      }
    }
  }

  /** How many times `c` occurs in `s`. */
  function Occurrences(s: string, c: char): (n: nat)
    ensures n <= |s|
  {
    if s == [] then 0 else (if s[0] == c then 1 else 0) + Occurrences(s[1..], c)
  }

  lemma {:induction false} OccurrencesConcat(a: string, b: string, c: char)
    ensures Occurrences(a + b, c) == Occurrences(a, c) + Occurrences(b, c)
  {
    if a == [] {
      assert a + b == b;
    } else {
      assert (a + b)[0] == a[0];
      assert (a + b)[1..] == a[1..] + b;
      OccurrencesConcat(a[1..], b, c);
    }
  }

  /** `' '.join(s.split())` keeps every non-space character as often as `s` has it. */
  lemma {:induction false} JoinSplitKeepsWords(s: string, c: char)
    requires !IsSpace(c)
    ensures Occurrences(Join(Split(s)), c) == Occurrences(s, c)
    decreases |s|
  {
    if s != [] {
      if IsSpace(s[0]) {
        assert Split(s) == Split(s[1..]);
        JoinSplitKeepsWords(s[1..], c);
        SameOccurrences([], s[0], s[1..], Join(Split(s)), c);
      } else {
        var n := WordLength(s);
        JoinSplitStep(s, n);
        var w := s[..n];
        if Split(s[n..]) == [] {
          BlankOccurrences(s[n..], c);
          assert s == w + s[n..];
          OccurrencesConcat(w, s[n..], c);
        } else {
          var t := s[n + 1..];
          JoinSplitKeepsWords(t, c);
          SplitAround(s, n);
          SameOccurrences(w, s[n], t, Join(Split(t)), c);
        }
      }
    }
  }

  /** Text is what lies before index `n`, the character there and what follows. */
  lemma SplitAround(s: string, n: nat)
    requires n < |s|
    ensures s == s[..n] + [s[n]] + s[n + 1..]
  {
  }

  /** `a`, a character other than `c` and `b` hold as many `c` as `a`, a space and
      any text holding as many `c` as `b`. */
  lemma SameOccurrences(a: string, x: char, b: string, jb: string, c: char)
    requires x != c && c != ' '
    requires Occurrences(jb, c) == Occurrences(b, c)
    ensures Occurrences(a + [x] + b, c) == Occurrences(a + " " + jb, c)
  {
    OccurrencesAround(a, x, b, c);
    OccurrencesAround(a, ' ', jb, c);
    assert a + " " + jb == a + [' '] + jb;
  }

  /** A character other than `c` between two texts adds nothing to the count of `c`. */
  lemma OccurrencesAround(a: string, x: char, b: string, c: char)
    requires x != c
    ensures Occurrences(a + [x] + b, c) == Occurrences(a, c) + Occurrences(b, c)
  {
    assert a + [x] + b == a + ([x] + b);
    OccurrencesConcat(a, [x] + b, c);
    assert ([x] + b)[1..] == b;
  }

  /** Every non-space character occurs in `' '.join(s.split())` as often as in `s`. */
  lemma JoinSplitKeepsAll(s: string)
    ensures forall c :: !IsSpace(c) ==> Occurrences(Join(Split(s)), c) == Occurrences(s, c)
  {
    forall c | !IsSpace(c)
      ensures Occurrences(Join(Split(s)), c) == Occurrences(s, c)
    {
      JoinSplitKeepsWords(s, c);
    }
  }

  /** Filtering keeps every character it accepts as often as `s` has it. */
  lemma {:induction false} KeepOccurrences(s: string, keep: char -> bool, c: char)
    requires keep(c)
    ensures Occurrences(Keep(s, keep), c) == Occurrences(s, c)
  {
    if s != [] {
      var head := if keep(s[0]) then [s[0]] else [];
      KeepOccurrences(s[1..], keep, c);
      OccurrencesConcat(head, Keep(s[1..], keep), c);
      assert head != [] ==> head[1..] == [];
    }
  }

  /** Every accepted character occurs in the filtered text as often as in `s`. */
  lemma KeepKeepsAll(s: string, keep: char -> bool)
    ensures forall c :: keep(c) ==> Occurrences(Keep(s, keep), c) == Occurrences(s, c)
  {
    forall c | keep(c)
      ensures Occurrences(Keep(s, keep), c) == Occurrences(s, c)
    {
      KeepOccurrences(s, keep, c);
    }
  }

  /** Blank text holds no non-space character. */
  lemma {:induction false} BlankOccurrences(s: string, c: char)
    requires !IsSpace(c) && forall k :: 0 <= k < |s| ==> IsSpace(s[k])
    ensures Occurrences(s, c) == 0
  {
    if s != [] {
      BlankOccurrences(s[1..], c);
    }
  }

  /** Text that splits into no words is all whitespace. */
  lemma {:induction false} SplitEmpty(s: string)
    requires Split(s) == []
    ensures forall k :: 0 <= k < |s| ==> IsSpace(s[k])
    decreases |s|
  {
    if s != [] {
      assert IsSpace(s[0]);
      SplitEmpty(s[1..]);
      assert forall k :: 1 <= k < |s| ==> s[k] == s[1..][k - 1];
    }
  }

  /** On single-spaced text, `' '.join(s.split())` changes nothing. */
  lemma {:induction false} JoinSplitSingleSpaced(s: string)
    requires SingleSpaced(s)
    ensures Join(Split(s)) == s
    decreases |s|
  {
    if s != [] {
      var n := WordLength(s);
      assert n > 0 by {
        if IsSpace(s[0]) { assert false; }
      }
      var w := s[..n];
      assert NoSpace(w);
      if n < |s| {
        assert s[n] == ' ' && s[n + 1] != ' ';
        var rest := s[n + 1..];
        assert s == w + " " + rest;
        assert SingleSpaced(rest) by {
          forall k | 0 <= k < |rest| && IsSpace(rest[k])
            ensures rest[k] == ' ' && 0 < k < |rest| - 1 && rest[k + 1] != ' '
          {
            assert rest[k] == s[n + 1 + k];
            assert IsSpace(s[n + 1 + k]);
          }
        }
        JoinSplitSingleSpaced(rest);
        var ws := Split(rest);
        assert ws != [];
        SplitWordThenSpace(w, rest, ws);
        var all := [w] + ws;
        assert all[0] == w && all[1..] == ws && |all| > 1;
        assert Join(all) == w + " " + Join(ws);
      } else {
        assert s == w;
        SplitWord(w);
        assert Join([w]) == w;
      }
    }
  }

  /** `str.rstrip()` */
  function RStrip(s: string): (r: string)
    ensures |r| <= |s| && r == s[..|r|]
    ensures r == [] || !IsSpace(r[|r| - 1])
    ensures forall k :: |r| <= k < |s| ==> IsSpace(s[k])
  {
    if s != [] && IsSpace(s[|s| - 1]) then RStrip(s[..|s| - 1]) else s
  }

  /** `str.strip()` */
  function Strip(s: string): (r: string)
    ensures |r| <= |s|
    ensures r == [] || (!IsSpace(r[0]) && !IsSpace(r[|r| - 1]))
  {
    RStrip(DropSpaces(s))
  }

  /** Stripping one leading space from text that has no whitespace at its ends. */
  lemma StripLeadingSpace(w: string)
    requires w != [] && !IsSpace(w[0]) && !IsSpace(w[|w| - 1])
    ensures Strip(" " + w) == w
  {
    assert (" " + w)[1..] == w;
    assert DropSpaces(" " + w) == w;
  }

  lemma StripSingleSpaced(s: string)
    requires SingleSpaced(s)
    ensures Strip(s) == s
  {
    if s != [] {
      assert !IsSpace(s[0]) by {
        if IsSpace(s[0]) { assert false; }
      }
      assert !IsSpace(s[|s| - 1]) by {
        if IsSpace(s[|s| - 1]) { assert false; }
      }
    }
  }

  // ---------------------------------------------------------------------------
  // Runs of separators: re.sub(r'[,\s]+', ' ', s)

  predicate IsSeparator(c: char) { c == ',' || IsSpace(c) }

  /** Every comma or whitespace character is a space, and no space follows it. */
  predicate Collapsed(r: string) {
    forall k {:trigger IsSeparator(r[k])} :: 0 <= k < |r| && IsSeparator(r[k]) ==>
      r[k] == ' ' && (k + 1 < |r| ==> r[k + 1] != ' ')
  }

  function DropSeparators(s: string): (r: string)
    ensures |r| <= |s| && r == s[|s| - |r|..]
    ensures r == [] || !IsSeparator(r[0])
    ensures forall k :: 0 <= k < |s| - |r| ==> IsSeparator(s[k])
  {
    if s != [] && IsSeparator(s[0]) then DropSeparators(s[1..]) else s
  }

  /** Every maximal run of commas and whitespace becomes one space. */
  function CollapseSeparators(s: string): (r: string)
    ensures r == [] <==> s == []
    ensures r != [] ==> (r[0] == ' ' <==> IsSeparator(s[0]))
    ensures Collapsed(r)
    decreases |s|
  {
    if s == [] then []
    else if IsSeparator(s[0]) then
      var rest := DropSeparators(s);
      var tail := CollapseSeparators(rest);
      var r := [' '] + tail;
      assert forall k :: 0 < k < |r| ==> r[k] == tail[k - 1];
      assert forall k :: 0 < k < |r| && IsSeparator(r[k]) ==> IsSeparator(tail[k - 1]);
      r
    else
      var tail := CollapseSeparators(s[1..]);
      var r := [s[0]] + tail;
      assert forall k :: 0 < k < |r| ==> r[k] == tail[k - 1];
      assert forall k :: 0 < k < |r| && IsSeparator(r[k]) ==> IsSeparator(tail[k - 1]);
      r
  }

  lemma {:induction false} DropSeparatorsPrefix(a: string, b: string)
    requires forall k :: 0 <= k < |a| ==> IsSeparator(a[k])
    requires b == [] || !IsSeparator(b[0])
    ensures DropSeparators(a + b) == b
    decreases |a|
  {
    if a != [] {
      assert (a + b)[1..] == a[1..] + b;
      DropSeparatorsPrefix(a[1..], b);
    }
  }

  /** A leading run of commas and whitespace collapses to one space. */
  lemma CollapseLeading(sep: string, rest: string)
    requires sep != [] && forall k :: 0 <= k < |sep| ==> IsSeparator(sep[k])
    requires rest == [] || !IsSeparator(rest[0])
    ensures CollapseSeparators(sep + rest) == " " + CollapseSeparators(rest)
  {
    DropSeparatorsPrefix(sep, rest);
    assert IsSeparator((sep + rest)[0]);
  }

  /** Text whose separators are already single spaces is left as it is. */
  lemma {:induction false} CollapseCollapsed(s: string)
    requires Collapsed(s)
    ensures CollapseSeparators(s) == s
    decreases |s|
  {
    if s != [] {
      var t := s[1..];
      CollapsedTail(s);
      CollapseCollapsed(t);
      if IsSeparator(s[0]) {
        assert t == [] || !IsSeparator(t[0]);
        assert DropSeparators(s) == t by {
          assert DropSeparators(s) == DropSeparators(t);
        }
        assert CollapseSeparators(s) == [' '] + t;
        assert s[0] == ' ';
      } else {
        assert CollapseSeparators(s) == [s[0]] + t;
      }
      assert [s[0]] + t == s;
    }
  }

  /** Dropping the first character keeps text collapsed. */
  lemma CollapsedTail(s: string)
    requires s != [] && Collapsed(s)
    ensures Collapsed(s[1..])
  {
    var t := s[1..];
    forall k | 0 <= k < |t| && IsSeparator(t[k])
      ensures t[k] == ' ' && (k + 1 < |t| ==> t[k + 1] != ' ')
    {
      assert IsSeparator(s[k + 1]);
    }
  }

  /** Commas and whitespace in front of collapsed text that starts and ends with
      something else collapse to one space, which stripping removes. */
  lemma StripCollapseLeading(sep: string, w: string)
    requires sep != [] && forall k :: 0 <= k < |sep| ==> IsSeparator(sep[k])
    requires w != [] && Collapsed(w) && !IsSeparator(w[0]) && !IsSpace(w[|w| - 1])
    ensures Strip(CollapseSeparators(sep + w)) == w
  {
    CollapseLeading(sep, w);
    CollapseCollapsed(w);
    var c := CollapseSeparators(sep + w);
    assert c == " " + w;
    StripLeadingSpace(w);
  }

  /** The collapsed text is blank exactly when the input held only commas and whitespace. */
  lemma {:induction false} CollapseBlank(s: string)
    ensures (forall k :: 0 <= k < |s| ==> IsSeparator(s[k])) <==> CollapseSeparators(s) in {"", " "}
    decreases |s|
  {
    if s != [] {
      var r := CollapseSeparators(s);
      if IsSeparator(s[0]) {
        var rest := DropSeparators(s);
        var tail := CollapseSeparators(rest);
        assert r == [' '] + tail;
        var off := |s| - |rest|;
        if rest == [] {
          assert r == " ";
        } else {
          assert rest[0] == s[off];
          assert tail != [];
          assert |r| > 1;
        }
      } else {
        assert r[0] == s[0];
      }
    }
  }

  /** `str.strip()` keeps a slice of its input. */
  lemma StripSlice(r: string) returns (lo: nat)
    ensures lo + |Strip(r)| <= |r| && Strip(r) == r[lo..lo + |Strip(r)|]
  {
    var d := DropSpaces(r);
    lo := |r| - |d|;
    var t := Strip(r);
    assert t == d[..|t|];
    assert d == r[lo..];
  }

  /** `str.strip()` removes only whitespace: it empties exactly the all-whitespace text. */
  lemma StripBlank(r: string)
    ensures Strip(r) == [] ==> forall k :: 0 <= k < |r| ==> IsSpace(r[k])
  {
    var d := DropSpaces(r);
    assert Strip(r) == [] ==> d == [];
  }

  /** A slice of collapsed text that neither starts nor ends with whitespace is
      single-spaced and free of commas. */
  lemma CollapsedSlice(r: string, lo: nat, t: string)
    requires Collapsed(r)
    requires lo + |t| <= |r| && t == r[lo..lo + |t|]
    requires t == [] || (!IsSpace(t[0]) && !IsSpace(t[|t| - 1]))
    ensures SingleSpaced(t)
    ensures forall k :: 0 <= k < |t| ==> t[k] != ','
  {
    forall k | 0 <= k < |t| && IsSpace(t[k])
      ensures t[k] == ' ' && 0 < k < |t| - 1 && t[k + 1] != ' '
    {
      assert t[k] == r[lo + k];
      assert IsSeparator(r[lo + k]);
      if k + 1 < |t| {
        assert t[k + 1] == r[lo + k + 1];
      }
    }
    forall k | 0 <= k < |t|
      ensures t[k] != ','
    {
      assert t[k] == r[lo + k];
      assert IsSeparator(r[lo + k]) ==> r[lo + k] == ' ';
    }
  }

  /** Stripping collapsed text leaves it single-spaced and free of commas. */
  lemma StripCollapsed(r: string)
    requires Collapsed(r)
    ensures SingleSpaced(Strip(r))
    ensures forall k :: 0 <= k < |Strip(r)| ==> Strip(r)[k] != ','
  {
    var lo := StripSlice(r);
    CollapsedSlice(r, lo, Strip(r));
  }

  /** Collapsed text strips to nothing exactly when it is empty or one space. */
  lemma StripCollapsedBlank(r: string)
    requires Collapsed(r)
    ensures Strip(r) == [] <==> r in {"", " "}
  {
    StripBlank(r);
    if Strip(r) == [] && |r| > 1 {
      assert IsSpace(r[0]) && IsSpace(r[1]);
      assert IsSeparator(r[0]) && IsSeparator(r[1]);
      assert false;
    }
    if Strip(r) == [] && |r| == 1 {
      assert IsSeparator(r[0]);
      assert r == [r[0]] == " ";
    }
    if r == " " {
      assert IsSpace(r[0]);
      assert DropSpaces(r[1..]) == [];
      assert DropSpaces(r) == [];
    }
  }

  /** The first of `words`, from index `from` on, that occurs in `text`. */
  function FirstContained(words: seq<string>, text: string, from: nat): (r: Option<nat>)
    requires from <= |words|
    ensures r.Some? ==> from <= r.value < |words| && Contains(text, words[r.value])
    ensures r.Some? ==> forall j :: from <= j < r.value ==> !Contains(text, words[j])
    ensures r.None? <==> forall j :: from <= j < |words| ==> !Contains(text, words[j])
    decreases |words| - from
  {
    if from == |words| then None
    else if Contains(text, words[from]) then Some(from)
    else FirstContained(words, text, from + 1)
  }

  // ---------------------------------------------------------------------------
  // Numbers

  function DigitChar(d: nat): (c: char)
    requires d < 10
    ensures IsDigit(c)
  {
    ('0' as int + d) as char
  }

  /** `str(n)` for a natural number, in decimal without leading zeros. */
  function Decimal(n: nat): (r: string)
    ensures r != []
    ensures |r| == 1 <==> n < 10
    decreases n
  {
    if n < 10 then [DigitChar(n)] else Decimal(n / 10) + [DigitChar(n % 10)]
  }

  /** Different numbers have different decimal spellings. */
  lemma {:induction false} DecimalInjective(m: nat, n: nat)
    requires Decimal(m) == Decimal(n)
    ensures m == n
    decreases m
  {
    if m >= 10 && n >= 10 {
      var a, b := Decimal(m), Decimal(n);
      assert a[|a| - 1] == DigitChar(m % 10) && b[|b| - 1] == DigitChar(n % 10);
      assert a[..|a| - 1] == Decimal(m / 10) && b[..|b| - 1] == Decimal(n / 10);
      DecimalInjective(m / 10, n / 10);
    }
  }
}
