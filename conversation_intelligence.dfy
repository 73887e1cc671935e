/**
  `ConversationIntelligence`: the bot's text extraction and validation helpers. Each one
  is a function from the user's text to a value, with the regular expressions spelled out
  as small matchers over the restricted alphabet of `PyText`.
*/
module ConversationIntelligence {
  import opened Wrappers
  import opened PyText

  // ---------------------------------------------------------------------------
  // Greeting prefixes

  /** The end of the run of whitespace starting at `i`: `\s*`. */
  function SkipBlanks(s: string, i: nat): (j: nat)
    requires i <= |s|
    ensures i <= j <= |s|
    ensures j == |s| || !IsSpace(s[j])
    decreases |s| - i
  {
    if i < |s| && IsSpace(s[i]) then SkipBlanks(s, i + 1) else i
  }

  /** `\s+` at `i`. */
  function Blanks1(s: string, i: nat): (r: Option<nat>)
    requires i <= |s|
    ensures r.Some? ==> i < r.value <= |s|
    ensures r.Some? ==> r.value == |s| || !IsSpace(s[r.value])
  {
    if i < |s| && IsSpace(s[i]) then Some(SkipBlanks(s, i)) else None
  }

  /** `w` (lower case) occurs at `i`, ignoring case. */
  predicate WordAt(s: string, i: nat, w: string)
    requires i <= |s|
    decreases w
  {
    w == [] || (i < |s| && Lower(s[i]) == w[0] && WordAt(s, i + 1, w[1..]))
  }

  lemma {:induction false} WordAtBound(s: string, i: nat, w: string)
    requires i <= |s| && WordAt(s, i, w)
    ensures i + |w| <= |s|
    decreases w
  {
    if w != [] {
      WordAtBound(s, i + 1, w[1..]);
    }
  }

  /** The literal `w` at `i`, ignoring case. */
  function Literal(s: string, i: nat, w: string): (r: Option<nat>)
    requires i <= |s|
    ensures r.Some? ==> r.value == i + |w| <= |s|
  {
    if WordAt(s, i, w) then WordAtBound(s, i, w); Some(i + |w|) else None
  }

  /** `c?` at `i`, ignoring case. */
  function Opt(s: string, i: nat, c: char): (j: nat)
    requires i <= |s|
    ensures i <= j <= |s|
  {
    if i < |s| && Lower(s[i]) == c then i + 1 else i
  }

  /** `\s*,?\s*` at `i`. */
  function Separator(s: string, i: nat): (j: nat)
    requires i <= |s|
    ensures i <= j <= |s|
    ensures j == |s| || !IsSpace(s[j])
  {
    SkipBlanks(s, Opt(s, SkipBlanks(s, i), ','))
  }

  /** `(d[ií]a|tarde|noche)` at `i`, ignoring case. */
  function PartOfDay(s: string, i: nat): (r: Option<nat>)
    requires i <= |s|
    ensures r.Some? ==> i < r.value <= |s|
  {
    if WordAt(s, i, "dia") then Literal(s, i, "dia")
    else if WordAt(s, i, "día") then Literal(s, i, "día")
    else if WordAt(s, i, "tarde") then Literal(s, i, "tarde")
    else Literal(s, i, "noche")
  }

  // Each greeting pattern is anchored at the start of the text and matched ignoring
  // case. Each function returns the length of the pattern's match, if it matches; every
  // pattern ends in whitespace it takes all of, so what follows a match is not a blank. Every
  // repetition and option takes as much as it can; for these patterns that is the match
  // Python's backtracking engine finds, because whatever follows a greedy piece cannot
  // begin with a character the piece consumed.

  /** `^\s*hola\s*,?\s*` */
  function MatchHola(s: string): (r: Option<nat>)
    ensures r.Some? ==> 0 < r.value <= |s|
    ensures r.Some? ==> r.value == |s| || !IsSpace(s[r.value])
  {
    var j :- Literal(s, SkipBlanks(s, 0), "hola");
    Some(Separator(s, j))
  }

  /** `^\s*buenos?\s+(d[ií]as?|tardes?|noches?)\s*,?\s*` */
  function MatchBuenosDias(s: string): (r: Option<nat>)
    ensures r.Some? ==> 0 < r.value <= |s|
    ensures r.Some? ==> r.value == |s| || !IsSpace(s[r.value])
  {
    var j :- Literal(s, SkipBlanks(s, 0), "bueno");
    var k :- Blanks1(s, Opt(s, j, 's'));
    var m :- PartOfDay(s, k);
    Some(Separator(s, Opt(s, m, 's')))
  }

  /** `^\s*que\s+tal\s*,?\s*` */
  function MatchQueTal(s: string): (r: Option<nat>)
    ensures r.Some? ==> 0 < r.value <= |s|
    ensures r.Some? ==> r.value == |s| || !IsSpace(s[r.value])
  {
    var j :- Literal(s, SkipBlanks(s, 0), "que");
    var k :- Blanks1(s, j);
    var m :- Literal(s, k, "tal");
    Some(Separator(s, m))
  }

  /** `^\s*soy\s+` */
  function MatchSoy(s: string): (r: Option<nat>)
    ensures r.Some? ==> 0 < r.value <= |s|
    ensures r.Some? ==> r.value == |s| || !IsSpace(s[r.value])
  {
    var j :- Literal(s, SkipBlanks(s, 0), "soy");
    Blanks1(s, j)
  }

  /** `^\s*me\s+llamo\s+` */
  function MatchMeLlamo(s: string): (r: Option<nat>)
    ensures r.Some? ==> 0 < r.value <= |s|
    ensures r.Some? ==> r.value == |s| || !IsSpace(s[r.value])
  {
    var j :- Literal(s, SkipBlanks(s, 0), "me");
    var k :- Blanks1(s, j);
    var m :- Literal(s, k, "llamo");
    Blanks1(s, m)
  }

  /** `^\s*mi\s+nombre\s+es\s+` */
  function MatchMiNombreEs(s: string): (r: Option<nat>)
    ensures r.Some? ==> 0 < r.value <= |s|
    ensures r.Some? ==> r.value == |s| || !IsSpace(s[r.value])
  {
    var j :- Literal(s, SkipBlanks(s, 0), "mi");
    var k :- Blanks1(s, j);
    var m :- Literal(s, k, "nombre");
    var n :- Blanks1(s, m);
    var q :- Literal(s, n, "es");
    Blanks1(s, q)
  }

  /** The greeting patterns of `extract_name`. */
  datatype Greeting = Hola | BuenosDias | QueTal | Soy | MeLlamo | MiNombreEs
  {
    function Match(s: string): (r: Option<nat>)
      ensures r.Some? ==> 0 < r.value <= |s|
      ensures r.Some? ==> r.value == |s| || !IsSpace(s[r.value])
    {
      match this
      case Hola => MatchHola(s)
      case BuenosDias => MatchBuenosDias(s)
      case QueTal => MatchQueTal(s)
      case Soy => MatchSoy(s)
      case MeLlamo => MatchMeLlamo(s)
      case MiNombreEs => MatchMiNombreEs(s)
    }
  }

  /** The greeting patterns, in the order `extract_name` applies them. */
  const GreetingPatterns: seq<Greeting> := [Hola, BuenosDias, QueTal, Soy, MeLlamo, MiNombreEs]

  /** `r` is what is left of `s` once a prefix is removed. */
  predicate Suffix(r: string, s: string) {
    exists n :: 0 <= n <= |s| && r == s[n..]
  }

  lemma SuffixOfSuffix(r: string, s: string, t: string)
    requires Suffix(r, s) && Suffix(s, t)
    ensures Suffix(r, t)
  {
    var n :| 0 <= n <= |s| && r == s[n..];
    var m :| 0 <= m <= |t| && s == t[m..];
    assert r == t[m + n..];
  }

  /** `re.sub(pattern, '', s, flags=re.IGNORECASE)` for a pattern anchored with `^`: the
      match at the start, if any, is removed, and nothing else. */
  function StripGreeting(g: Greeting, s: string): string
  {
    match g.Match(s)
    case None => s
    case Some(n) => s[n..]
  }

  /** Removing a match leaves a suffix of the text. */
  lemma StripGreetingSuffix(g: Greeting, s: string)
    ensures Suffix(StripGreeting(g, s), s)
  {
    match g.Match(s)
    case None => assert s == s[0..];
    case Some(n) => assert StripGreeting(g, s) == s[n..];
  }

  /** The patterns of `ps` applied once each, in order; only a prefix is ever removed. */
  function StripGreetings(ps: seq<Greeting>, s: string): (r: string)
    ensures Suffix(r, s)
  {
    if ps == [] then assert s == s[0..]; s
    else
      var s' := StripGreeting(ps[0], s);
      var r := StripGreetings(ps[1..], s');
      StripGreetingSuffix(ps[0], s);
      SuffixOfSuffix(r, s', s);
      r
  }

  // ---------------------------------------------------------------------------
  // extract_name

  /** The class `[a-zA-ZáéíóúÁÉÍÓÚñÑ\s]` of characters a name keeps. */
  predicate IsNameChar(c: char) { IsLetter(c) || IsSpace(c) }

  /** A letter at `k` is upper case exactly when it starts a word. */
  predicate Capitalised(r: string, k: nat)
    requires k < |r|
  {
    IsLetter(r[k]) ==> if k == 0 || r[k - 1] == ' ' then IsUpper(r[k]) else IsLower(r[k])
  }

  /** What `extract_name` returns: letters and single interior spaces, every word
      capitalised. */
  predicate IsCleanName(r: string) {
    SingleSpaced(r)
    && (forall k :: 0 <= k < |r| ==> r[k] == ' ' || IsLetter(r[k]))
    && (forall k :: 0 <= k < |r| ==> Capitalised(r, k))
  }

  /** The name `extract_name` returns for `text`: always a clean name, whatever the
      text. */
  function NameOf(text: string): (name: string)
    ensures IsCleanName(name)
  {
    var cleaned := StripGreetings(GreetingPatterns, text);
    var kept := Keep(cleaned, IsNameChar);
    SplitKeeps(kept, IsLetter);
    var ws := Split(kept);
    JoinOfWords(ws);
    JoinKeeps(ws, IsLetter);
    var j := Join(ws);
    StripSingleSpaced(j);
    TitleClean(j);
    Title(Strip(j))
  }

  /** Title-casing letters-and-single-spaces text yields a clean name. */
  lemma TitleClean(j: string)
    requires SingleSpaced(j)
    requires forall k :: 0 <= k < |j| ==> j[k] == ' ' || IsLetter(j[k])
    ensures IsCleanName(Title(j))
  {
    var r := Title(j);
    forall k | 0 <= k < |r| && IsSpace(r[k])
      ensures r[k] == ' ' && 0 < k < |r| - 1 && r[k + 1] != ' '
    {
      assert !IsLetter(r[k]);
      assert r[k] == j[k] && IsSpace(j[k]);
      assert IsLetter(j[k + 1]) ==> IsLetter(r[k + 1]);
    }
    forall k | 0 <= k < |r|
      ensures Capitalised(r, k)
    {
      if k > 0 {
        assert r[k - 1] == ' ' <==> !IsLetter(j[k - 1]);
      }
    }
  }

  /** Title-casing a clean name changes nothing. */
  lemma TitleOfClean(c: string)
    requires IsCleanName(c)
    ensures Title(c) == c
  {
    var r := Title(c);
    forall k | 0 <= k < |c|
      ensures r[k] == c[k]
    {
      assert Capitalised(c, k);
      if k > 0 && IsLetter(c[k]) {
        assert IsLetter(c[k - 1]) <==> c[k - 1] != ' ';
      }
    }
  }

  /** Once the greetings are gone, a clean name passes through `extract_name` unchanged. */
  lemma NameOfCleanRemainder(text: string)
    requires IsCleanName(StripGreetings(GreetingPatterns, text))
    ensures NameOf(text) == StripGreetings(GreetingPatterns, text)
  {
    var c := StripGreetings(GreetingPatterns, text);
    assert Keep(c, IsNameChar) == c;
    JoinSplitSingleSpaced(c);
    StripSingleSpaced(c);
    TitleOfClean(c);
  }

  /** `w` occurs at `i`, ignoring case, when each of its characters does. */
  lemma {:induction false} WordAtChars(s: string, i: nat, w: string)
    requires i + |w| <= |s|
    requires forall k :: 0 <= k < |w| ==> Lower(s[i + k]) == w[k]
    ensures WordAt(s, i, w)
    decreases w
  {
    if w != [] {
      WordAtChars(s, i + 1, w[1..]);
    }
  }


  // The three examples of `extract_name`'s documentation, pattern by pattern. Each
  // matcher is run on a greeting followed by an arbitrary remainder.

  /** `^\s*hola\s*,?\s*` matches "Hola " and stops at the next word. */
  lemma HolaMatched(rest: string)
    requires rest != [] && !IsSpace(rest[0]) && rest[0] != ','
    ensures MatchHola("Hola " + rest) == Some(5)
  {
    var s := "Hola " + rest;
    assert SkipBlanks(s, 0) == 0;
    WordAtChars(s, 0, "hola");
    assert SkipBlanks(s, 5) == 5;
    assert SkipBlanks(s, 4) == 5;
    assert Opt(s, 5, ',') == 5;
  }

  /** Of the patterns that run after `hola`, only `soy` matches "soy <rest>". */
  lemma SoyMatched(rest: string)
    requires rest != [] && !IsSpace(rest[0])
    ensures MatchBuenosDias("soy " + rest) == None
    ensures MatchQueTal("soy " + rest) == None
    ensures MatchSoy("soy " + rest) == Some(4)
  {
    var s := "soy " + rest;
    WordAtChars(s, 0, "soy");
    assert SkipBlanks(s, 4) == 4;
  }

  /** The name left over in the first example starts no greeting. */
  lemma JuanPerezStep()
    ensures MatchMeLlamo("Juan Perez") == None
    ensures MatchMiNombreEs("Juan Perez") == None
  {
  }

  /** `d[ií]a` matches the accented "día". */
  lemma DiasMatched(rest: string)
    ensures PartOfDay("Buenos días, " + rest, 7) == Some(10)
  {
    var s := "Buenos días, " + rest;
    assert !WordAt(s, 7, "dia") by {
      assert Lower(s[8]) == 'í';
    }
    WordAtChars(s, 7, "día");
  }

  /** "Buenos " matches `buenos?\s+`. */
  lemma BuenosMatched(rest: string)
    ensures Literal("Buenos días, " + rest, SkipBlanks("Buenos días, " + rest, 0), "bueno") == Some(5)
    ensures Blanks1("Buenos días, " + rest, Opt("Buenos días, " + rest, 5, 's')) == Some(7)
  {
    var s := "Buenos días, " + rest;
    assert SkipBlanks(s, 0) == 0;
    WordAtChars(s, 0, "bueno");
    assert Opt(s, 5, 's') == 6;
    assert SkipBlanks(s, 7) == 7;
  }

  /** The plural `s`, the comma and the blank after "día" are taken. */
  lemma DiasSeparator(rest: string)
    requires rest != [] && !IsSpace(rest[0])
    ensures Separator("Buenos días, " + rest, Opt("Buenos días, " + rest, 10, 's')) == 13
  {
    var s := "Buenos días, " + rest;
    assert Opt(s, 10, 's') == 11;
    assert SkipBlanks(s, 11) == 11;
    assert SkipBlanks(s, 13) == 13;
    assert SkipBlanks(s, 12) == 13;
  }

  /** `^\s*buenos?\s+(d[ií]as?|tardes?|noches?)\s*,?\s*` matches "Buenos días, ". */
  lemma BuenosDiasMatched(rest: string)
    requires rest != [] && !IsSpace(rest[0])
    ensures MatchHola("Buenos días, " + rest) == None
    ensures MatchBuenosDias("Buenos días, " + rest) == Some(13)
  {
    BuenosMatched(rest);
    DiasMatched(rest);
    DiasSeparator(rest);
  }

  /** Of the patterns that run after `buenos días`, only `me llamo` matches "me llamo <rest>". */
  lemma MeLlamoMatched(rest: string)
    requires rest != [] && !IsSpace(rest[0])
    ensures MatchQueTal("me llamo " + rest) == None
    ensures MatchSoy("me llamo " + rest) == None
    ensures MatchMeLlamo("me llamo " + rest) == Some(9)
  {
    var s := "me llamo " + rest;
    WordAtChars(s, 0, "me");
    assert SkipBlanks(s, 3) == 3;
    WordAtChars(s, 3, "llamo");
    assert SkipBlanks(s, 9) == 9;
  }

  /** The name left over in the second example starts no greeting. */
  lemma MariaLopezStep()
    ensures MatchMiNombreEs("María López") == None
  {
  }

  /** "Mi nombre" matches `mi\s+nombre`. */
  lemma MiMatched(rest: string)
    ensures Literal("Mi nombre es " + rest, SkipBlanks("Mi nombre es " + rest, 0), "mi") == Some(2)
    ensures Blanks1("Mi nombre es " + rest, 2) == Some(3)
    ensures Literal("Mi nombre es " + rest, 3, "nombre") == Some(9)
  {
    var s := "Mi nombre es " + rest;
    assert SkipBlanks(s, 0) == 0;
    WordAtChars(s, 0, "mi");
    assert SkipBlanks(s, 3) == 3;
    WordAtChars(s, 3, "nombre");
  }

  /** " es " matches `\s+es\s+`. */
  lemma EsMatched(rest: string)
    requires rest != [] && !IsSpace(rest[0])
    ensures Blanks1("Mi nombre es " + rest, 9) == Some(10)
    ensures Literal("Mi nombre es " + rest, 10, "es") == Some(12)
    ensures Blanks1("Mi nombre es " + rest, 12) == Some(13)
  {
    var s := "Mi nombre es " + rest;
    assert SkipBlanks(s, 10) == 10;
    WordAtChars(s, 10, "es");
    assert SkipBlanks(s, 13) == 13;
  }

  /** `^\s*mi\s+nombre\s+es\s+` matches "Mi nombre es ". */
  lemma MiNombreEsMatched(rest: string)
    requires rest != [] && !IsSpace(rest[0])
    ensures MatchMiNombreEs("Mi nombre es " + rest) == Some(13)
  {
    MiMatched(rest);
    EsMatched(rest);
  }

  /** No pattern before `mi nombre es` matches "Mi nombre es <rest>". */
  lemma MiNombreEsMissesGreetings(rest: string)
    ensures MatchHola("Mi nombre es " + rest) == None
    ensures MatchBuenosDias("Mi nombre es " + rest) == None
    ensures MatchQueTal("Mi nombre es " + rest) == None
  {
    var s := "Mi nombre es " + rest;
    assert SkipBlanks(s, 0) == 0;
  }

  lemma MiNombreEsMissesIntroductions(rest: string)
    ensures MatchSoy("Mi nombre es " + rest) == None
    ensures MatchMeLlamo("Mi nombre es " + rest) == None
  {
    var s := "Mi nombre es " + rest;
    assert SkipBlanks(s, 0) == 0;
    assert Lower(s[0]) == 'm' && Lower(s[1]) == 'i';
    assert !WordAt(s, 0, "soy");
    assert !WordAt(s, 1, "e");
    assert !WordAt(s, 0, "me");
  }

  /** Stripping with a list of patterns applies its first pattern, then the rest. */
  lemma StripFirst(ps: seq<Greeting>, s: string)
    requires ps != []
    ensures StripGreetings(ps, s) == StripGreetings(ps[1..], StripGreeting(ps[0], s))
  {
  }

  /** The last three patterns of the fixed list, in order. */
  lemma StripLastThree(s: string)
    ensures StripGreetings(GreetingPatterns[3..], s)
         == StripGreeting(MiNombreEs, StripGreeting(MeLlamo, StripGreeting(Soy, s)))
  {
    var ps := GreetingPatterns[3..];
    var s1 := StripGreeting(Soy, s);
    var s2 := StripGreeting(MeLlamo, s1);
    StripFirst(ps, s);
    StripFirst(ps[1..], s1);
    StripFirst(ps[2..], s2);
    assert ps[1..][1..] == ps[2..] && ps[2..][1..] == [];
  }

  /** Stripping with the fixed pattern list applies the six patterns in order. */
  lemma StripAllInOrder(s: string)
    ensures StripGreetings(GreetingPatterns, s)
         == StripGreeting(MiNombreEs, StripGreeting(MeLlamo, StripGreeting(Soy,
              StripGreeting(QueTal, StripGreeting(BuenosDias, StripGreeting(Hola, s))))))
  {
    var ps := GreetingPatterns;
    var s1 := StripGreeting(Hola, s);
    var s2 := StripGreeting(BuenosDias, s1);
    var s3 := StripGreeting(QueTal, s2);
    StripFirst(ps, s);
    StripFirst(ps[1..], s1);
    StripFirst(ps[2..], s2);
    assert ps[1..][1..] == ps[2..] && ps[2..][1..] == ps[3..];
    StripLastThree(s3);
  }

  /** `hola` removes "Hola " from "Hola soy <rest>". */
  lemma HolaStep(rest: string)
    requires rest != [] && !IsSpace(rest[0])
    ensures StripGreeting(Hola, "Hola soy " + rest) == "soy " + rest
  {
    var s1 := "soy " + rest;
    assert "Hola soy " + rest == "Hola " + s1;
    HolaMatched(s1);
    assert ("Hola " + s1)[5..] == s1;
  }

  /** `soy` removes "soy "; the two patterns before it leave the text alone. */
  lemma SoyStep(rest: string)
    requires rest != [] && !IsSpace(rest[0])
    ensures StripGreeting(BuenosDias, "soy " + rest) == "soy " + rest
    ensures StripGreeting(QueTal, "soy " + rest) == "soy " + rest
    ensures StripGreeting(Soy, "soy " + rest) == rest
  {
    SoyMatched(rest);
    assert ("soy " + rest)[4..] == rest;
  }

  /** "Hola soy <rest>" loses its two greetings. */
  lemma HolaSoyStripped(rest: string)
    requires rest != [] && !IsSpace(rest[0])
    requires MatchMeLlamo(rest) == None && MatchMiNombreEs(rest) == None
    ensures StripGreetings(GreetingPatterns, "Hola soy " + rest) == rest
  {
    HolaStep(rest);
    SoyStep(rest);
    StripAllInOrder("Hola soy " + rest);
  }

  /** `buenos días` removes "Buenos días, "; `hola` leaves the text alone. */
  lemma BuenosDiasStep(rest: string)
    requires rest != [] && !IsSpace(rest[0])
    ensures StripGreeting(Hola, "Buenos días, me llamo " + rest) == "Buenos días, me llamo " + rest
    ensures StripGreeting(BuenosDias, "Buenos días, me llamo " + rest) == "me llamo " + rest
  {
    var s1 := "me llamo " + rest;
    assert "Buenos días, me llamo " + rest == "Buenos días, " + s1;
    BuenosDiasMatched(s1);
    assert ("Buenos días, " + s1)[13..] == s1;
  }

  /** `me llamo` removes "me llamo "; the two patterns before it leave the text alone. */
  lemma MeLlamoStep(rest: string)
    requires rest != [] && !IsSpace(rest[0])
    ensures StripGreeting(QueTal, "me llamo " + rest) == "me llamo " + rest
    ensures StripGreeting(Soy, "me llamo " + rest) == "me llamo " + rest
    ensures StripGreeting(MeLlamo, "me llamo " + rest) == rest
  {
    MeLlamoMatched(rest);
    assert ("me llamo " + rest)[9..] == rest;
  }

  /** "Buenos días, me llamo <rest>" loses its two greetings. */
  lemma BuenosDiasStripped(rest: string)
    requires rest != [] && !IsSpace(rest[0])
    requires MatchMiNombreEs(rest) == None
    ensures StripGreetings(GreetingPatterns, "Buenos días, me llamo " + rest) == rest
  {
    BuenosDiasStep(rest);
    MeLlamoStep(rest);
    StripAllInOrder("Buenos días, me llamo " + rest);
  }

  /** "Mi nombre es <rest>" loses its greeting. */
  lemma MiNombreEsStripped(rest: string)
    requires rest != [] && !IsSpace(rest[0])
    ensures StripGreetings(GreetingPatterns, "Mi nombre es " + rest) == rest
  {
    var s := "Mi nombre es " + rest;
    StripAllInOrder(s);
    MiNombreEsMissesGreetings(rest);
    MiNombreEsMissesIntroductions(rest);
    MiNombreEsMatched(rest);
    assert s[13..] == rest;
  }

  /** The three documented names are clean. */
  lemma JuanPerezClean()
    ensures IsCleanName("Juan Perez")
  {
  }

  lemma MariaLopezClean()
    ensures IsCleanName("María López")
  {
  }

  lemma CarlosClean()
    ensures IsCleanName("Carlos")
  {
  }

  /** The documented example "Hola soy Juan Perez". */
  lemma HolaSoyExample()
    ensures NameOf("Hola soy Juan Perez") == "Juan Perez"
  {
    assert "Hola soy Juan Perez" == "Hola soy " + "Juan Perez";
    JuanPerezStep();
    HolaSoyStripped("Juan Perez");
    JuanPerezClean();
    NameOfCleanRemainder("Hola soy Juan Perez");
  }

  /** The documented example "Buenos días, me llamo María López". */
  lemma BuenosDiasExample()
    ensures NameOf("Buenos días, me llamo María López") == "María López"
  {
    assert "Buenos días, me llamo María López" == "Buenos días, me llamo " + "María López";
    MariaLopezStep();
    BuenosDiasStripped("María López");
    MariaLopezClean();
    NameOfCleanRemainder("Buenos días, me llamo María López");
  }

  /** The documented example "Mi nombre es Carlos". */
  lemma MiNombreEsExample()
    ensures NameOf("Mi nombre es Carlos") == "Carlos"
  {
    assert "Mi nombre es Carlos" == "Mi nombre es " + "Carlos";
    MiNombreEsStripped("Carlos");
    CarlosClean();
    NameOfCleanRemainder("Mi nombre es Carlos");
  }

  /** The loop of `extract_name` that runs `re.sub` with each pattern in turn. */
  method RemoveGreetings(patterns: seq<Greeting>, text: string) returns (cleaned: string)
    ensures cleaned == StripGreetings(patterns, text)
  {
    cleaned := text;
    for i := 0 to |patterns|
      invariant StripGreetings(patterns[i..], cleaned) == StripGreetings(patterns, text)
    {
      assert patterns[i..][1..] == patterns[i + 1..];
      cleaned := StripGreeting(patterns[i], cleaned);
    }
  }

  /** `extract_name`: strips the greeting prefixes, keeps letters and whitespace,
      collapses whitespace and title-cases. */
  method ExtractName(text: string) returns (name: string)
    ensures name == NameOf(text)
    ensures IsCleanName(name)
  {
    var cleaned := RemoveGreetings(GreetingPatterns, text);
    cleaned := Keep(cleaned, IsNameChar);
    cleaned := Join(Split(cleaned));
    name := Title(Strip(cleaned));
  }

  // ---------------------------------------------------------------------------
  // extract_dni_location

  /** The length of the run of digits starting at `i`. */
  function DigitRun(s: string, i: nat): (n: nat)
    requires i <= |s|
    ensures i + n <= |s|
    ensures forall k :: i <= k < i + n ==> IsDigit(s[k])
    ensures i + n == |s| || !IsDigit(s[i + n])
    decreases |s| - i
  {
    if i < |s| && IsDigit(s[i]) then 1 + DigitRun(s, i + 1) else 0
  }

  /** A run of `n` digits followed by a non-digit (or the end) has length `n`. */
  lemma {:induction false} DigitRunExact(s: string, i: nat, n: nat)
    requires i + n <= |s|
    requires forall k :: i <= k < i + n ==> IsDigit(s[k])
    requires i + n == |s| || !IsDigit(s[i + n])
    ensures DigitRun(s, i) == n
    decreases n
  {
    if n > 0 {
      DigitRunExact(s, i + 1, n - 1);
    }
  }

  /** `\b` at position `j`: a word character on exactly one side. */
  predicate Boundary(s: string, j: nat)
    requires j <= |s|
  {
    (0 < j && IsWordChar(s[j - 1])) != (j < |s| && IsWordChar(s[j]))
  }

  /** `\b(\d{8}|\d{11})\b` matches `n` characters at `i`, read off the pattern. */
  predicate RegexMatchAt(s: string, i: nat, n: nat) {
    (n == 8 || n == 11) && i + n <= |s|
    && Boundary(s, i)
    && (forall k :: i <= k < i + n ==> IsDigit(s[k]))
    && Boundary(s, i + n)
  }

  /** A DNI (8 digits) or RUC (11 digits) starts at `i`: a whole run of digits, with no
      word character touching it on either side. */
  predicate DocumentAt(s: string, i: nat) {
    i < |s| && (i == 0 || !IsWordChar(s[i - 1]))
    && var n := DigitRun(s, i);
    (n == 8 || n == 11) && (i + n == |s| || !IsWordChar(s[i + n]))
  }

  /** `DocumentAt` is where the regular expression matches, and it matches the whole run. */
  lemma DocumentAtIsMatch(s: string, i: nat)
    requires i <= |s|
    ensures DocumentAt(s, i) <==> exists n :: RegexMatchAt(s, i, n)
    ensures DocumentAt(s, i) ==> RegexMatchAt(s, i, DigitRun(s, i))
  {
    if n :| RegexMatchAt(s, i, n) {
      assert IsWordChar(s[i]) && IsWordChar(s[i + n - 1]);
      DigitRunExact(s, i, n);
    }
    if DocumentAt(s, i) {
      var n := DigitRun(s, i);
      assert IsWordChar(s[i]) && IsWordChar(s[i + n - 1]);
      assert RegexMatchAt(s, i, n);
    }
  }

  /** `re.search` for the document pattern from position `from`: the first place it
      matches. */
  function FindDocument(s: string, from: nat): (r: Option<nat>)
    requires from <= |s|
    ensures r.Some? ==> from <= r.value < |s| && DocumentAt(s, r.value)
    ensures r.Some? ==> forall j :: from <= j < r.value ==> !DocumentAt(s, j)
    ensures r.None? ==> forall j :: from <= j <= |s| ==> !DocumentAt(s, j)
    decreases |s| - from
  {
    if from == |s| then None
    else if DocumentAt(s, from) then Some(from)
    else FindDocument(s, from + 1)
  }

  /** The dictionary `extract_dni_location` returns. */
  datatype DniLocation = DniLocation(dni: Option<string>, location: Option<string>)

  /** The DNI or RUC `extract_dni_location` finds in `text`, if any. */
  function DniOf(text: string): (r: Option<string>)
    ensures r.Some? ==> |r.value| >= 8
  {
    match FindDocument(text, 0)
    case None => None
    case Some(i) => Some(text[i..i + DigitRun(text, i)])
  }

  /** The text left once every occurrence of the DNI has been deleted from it. */
  function Remainder(text: string): string {
    match DniOf(text)
    case None => text
    case Some(d) => RemoveAll(text, d)
  }

  /** The location made of what is left: runs of commas and whitespace become one
      space, the ends are stripped, the words title-cased; nothing if that is empty. */
  function LocationOf(rest: string): Option<string> {
    var location := Title(Strip(CollapseSeparators(rest)));
    if location == [] then None else Some(location)
  }

  /** The dictionary `extract_dni_location` returns for `text`. */
  function DniLocationOf(text: string): (r: DniLocation)
    ensures r.location.Some? ==> SingleSpaced(r.location.value)
    ensures r.location.Some? ==> forall k :: 0 <= k < |r.location.value| ==> r.location.value[k] != ','
  {
    var c := CollapseSeparators(Remainder(text));
    StripCollapsed(c);
    TitleKeepsLayout(Strip(c));
    DniLocation(DniOf(text), LocationOf(Remainder(text)))
  }

  /** `extract_dni_location`: fills in the DNI, deletes it from the text, then
      collapses commas and whitespace, strips and title-cases what is left. */
  method ExtractDniLocation(text: string) returns (result: DniLocation)
    ensures result == DniLocationOf(text)
  {
    result := DniLocation(None, None);
    var rest := text;
    var m := FindDocument(text, 0);
    if m.Some? {
      var d := text[m.value..m.value + DigitRun(text, m.value)];
      result := result.(dni := Some(d));
      rest := RemoveAll(rest, d);
    }
    assert result.dni == DniOf(text) && rest == Remainder(text);
    var location := Title(Strip(CollapseSeparators(rest)));
    if location != [] {
      result := result.(location := Some(location));
    }
  }

  /** The DNI is the first match of `\b(\d{8}|\d{11})\b`, and there is none exactly
      when the pattern matches nowhere. */
  lemma DniIsFirstMatch(text: string)
    ensures DniOf(text).None? <==> forall i: nat, n: nat :: i <= |text| ==> !RegexMatchAt(text, i, n)
    ensures DniOf(text).Some? ==> exists i: nat ::
      && RegexMatchAt(text, i, |DniOf(text).value|)
      && DniOf(text).value == text[i..i + |DniOf(text).value|]
      && forall j: nat, n: nat :: j < i ==> !RegexMatchAt(text, j, n)
  {
    match FindDocument(text, 0)
    case None =>
      forall i: nat, n: nat | i <= |text|
        ensures !RegexMatchAt(text, i, n)
      {
        DocumentAtIsMatch(text, i);
      }
    case Some(i) =>
      DocumentAtIsMatch(text, i);
      forall j: nat, n: nat | j < i
        ensures !RegexMatchAt(text, j, n)
      {
        DocumentAtIsMatch(text, j);
      }
  }

  /** The DNI is 8 or 11 digits long and is a whole run of digits: runs of 9, 10 or 12
      digits, and digits glued to a letter, never give one. */
  lemma DniIsWholeRun(text: string)
    ensures DniOf(text).Some? ==>
      exists i: nat :: DocumentAt(text, i) && DniOf(text).value == text[i..i + DigitRun(text, i)]
    ensures DniOf(text).Some? ==> |DniOf(text).value| == 8 || |DniOf(text).value| == 11
    ensures DniOf(text).Some? ==> forall k :: 0 <= k < |DniOf(text).value| ==> IsDigit(DniOf(text).value[k])
  {
  }

  /** The location is missing exactly when nothing but commas and whitespace is left once
      the DNI is deleted. */
  lemma LocationBlank(text: string)
    ensures DniLocationOf(text).location.None? <==>
      forall k :: 0 <= k < |Remainder(text)| ==> IsSeparator(Remainder(text)[k])
  {
    var c := CollapseSeparators(Remainder(text));
    CollapseBlank(Remainder(text));
    StripCollapsedBlank(c);
  }

  /** A DNI or RUC at the start of the text, where the run of digits ends before a
      non-word character, is what `extract_dni_location` returns. */
  lemma LeadingDocument(d: string, rest: string)
    requires |d| == 8 || |d| == 11
    requires forall k :: 0 <= k < |d| ==> IsDigit(d[k])
    requires rest != [] && !IsWordChar(rest[0])
    ensures DniOf(d + rest) == Some(d)
  {
    var s := d + rest;
    DigitRunExact(s, 0, |d|);
    assert DocumentAt(s, 0);
    assert s[..|d|] == d;
  }

  /** ... and then the remainder is the rest with the DNI deleted from it. */
  lemma LeadingDocumentRemainder(d: string, rest: string)
    requires |d| == 8 || |d| == 11
    requires forall k :: 0 <= k < |d| ==> IsDigit(d[k])
    requires rest != [] && !IsWordChar(rest[0])
    ensures Remainder(d + rest) == RemoveAll(rest, d)
  {
    LeadingDocument(d, rest);
    var s := d + rest;
    assert s[..|d|] == d && s[|d|..] == rest;
  }

  /** A clean name is already collapsed, and starts and ends with a letter. */
  lemma CleanNameShape(place: string)
    requires place != [] && IsCleanName(place)
    ensures Collapsed(place)
    ensures IsLetter(place[0]) && IsLetter(place[|place| - 1])
  {
    assert IsSpace(place[0]) ==> 0 < 0;
    assert IsSpace(place[|place| - 1]) ==> |place| - 1 < |place| - 1;
    forall k | 0 <= k < |place| && IsSeparator(place[k])
      ensures place[k] == ' ' && (k + 1 < |place| ==> place[k + 1] != ' ')
    {
      assert IsSpace(place[k]);
    }
  }

  /** Commas and whitespace in front of a capitalised place collapse and strip away. */
  lemma SeparatorsThenPlace(sep: string, place: string)
    requires sep != [] && forall k :: 0 <= k < |sep| ==> IsSeparator(sep[k])
    requires place != [] && IsCleanName(place)
    ensures Title(Strip(CollapseSeparators(sep + place))) == place
  {
    CleanNameShape(place);
    StripCollapseLeading(sep, place);
    TitleOfClean(place);
  }

  /** The examples of `extract_dni_location`'s documentation: "10283749, Lima" gives
      DNI "10283749" and location "Lima", "20512345678 Huancayo" gives RUC
      "20512345678" and location "Huancayo"; in general, a document, commas and
      whitespace, then an already capitalised place. */
  lemma DocumentThenPlace(d: string, sep: string, place: string)
    requires |d| == 8 || |d| == 11
    requires forall k :: 0 <= k < |d| ==> IsDigit(d[k])
    requires sep != [] && forall k :: 0 <= k < |sep| ==> IsSeparator(sep[k])
    requires place != [] && IsCleanName(place)
    ensures DniLocationOf(d + sep + place) == DniLocation(Some(d), Some(place))
  {
    var tail := sep + place;
    assert d + sep + place == d + tail;
    LeadingDocument(d, tail);
    PlaceAfterDocument(d, sep, place);
  }

  /** The location part of the documented examples. */
  lemma PlaceAfterDocument(d: string, sep: string, place: string)
    requires |d| == 8 || |d| == 11
    requires forall k :: 0 <= k < |d| ==> IsDigit(d[k])
    requires sep != [] && forall k :: 0 <= k < |sep| ==> IsSeparator(sep[k])
    requires place != [] && IsCleanName(place)
    ensures LocationOf(Remainder(d + (sep + place))) == Some(place)
  {
    var tail := sep + place;
    LeadingDocumentRemainder(d, tail);
    NoDigitInPlace(sep, place, d[0]);
    RemoveAbsent(tail, d);
    SeparatorsThenPlace(sep, place);
  }

  /** Separators and a clean name hold no digit. */
  lemma NoDigitInPlace(sep: string, place: string, c: char)
    requires IsDigit(c)
    requires forall k :: 0 <= k < |sep| ==> IsSeparator(sep[k])
    requires IsCleanName(place)
    ensures forall k :: 0 <= k < |sep + place| ==> (sep + place)[k] != c
  {
    var tail := sep + place;
    forall k | 0 <= k < |tail|
      ensures tail[k] != c
    {
      if k >= |sep| {
        assert tail[k] == place[k - |sep|];
      }
    }
  }

  /** `text.replace(dni, '')` deletes the DNI's digits wherever they occur, even inside
      a longer number: "12345678 123456789" gives DNI "12345678" and location "9". */
  lemma DeletesEveryOccurrence(d: string, c: char)
    requires |d| == 8 && forall k :: 0 <= k < |d| ==> IsDigit(d[k])
    requires IsDigit(c)
    ensures DniLocationOf(d + " " + d + [c]) == DniLocation(Some(d), Some([c]))
  {
    var t := " " + d + [c];
    assert d + " " + d + [c] == d + t;
    LeadingDocument(d, t);
    LeadingDocumentRemainder(d, t);
    RemoveInsideNumber(d, c);
    DigitsLocation(" ", [c]);
  }

  lemma DigitsLocation(sep: string, w: string)
    requires sep != [] && forall k :: 0 <= k < |sep| ==> IsSeparator(sep[k])
    requires w != [] && forall k :: 0 <= k < |w| ==> IsDigit(w[k])
    ensures LocationOf(sep + w) == Some(w)
  {
    TitleOfDigits(w);
    StripCollapseLeading(sep, w);
  }

  lemma RemoveInsideNumber(d: string, c: char)
    requires |d| == 8 && IsDigit(d[0])
    ensures RemoveAll(" " + d + [c], d) == " " + [c]
  {
    var t := " " + d + [c];
    assert t[..|d|] != d by { assert t[..|d|][0] == ' '; }
    assert t[1..] == d + [c];
    assert RemoveAll(t, d) == [' '] + RemoveAll(d + [c], d);
    assert (d + [c])[..|d|] == d && (d + [c])[|d|..] == [c];
    assert RemoveAll(d + [c], d) == RemoveAll([c], d) == [c];
  }

  /** Text without digits has no DNI. */
  lemma NoDigitsNoDni(text: string)
    requires forall k :: 0 <= k < |text| ==> !IsDigit(text[k])
    ensures DniOf(text) == None
  {
    var m := FindDocument(text, 0);
    assert m.None?;
  }

  /** A location is returned even when there is no DNI: "sin datos" gives no DNI and
      location "Sin Datos". */
  lemma WordsOnly(text: string)
    requires text != [] && SingleSpaced(text)
    requires forall k :: 0 <= k < |text| ==> text[k] == ' ' || IsLetter(text[k])
    ensures DniLocationOf(text) == DniLocation(None, Some(Title(text)))
  {
    NoDigitsNoDni(text);
    assert Collapsed(text) by {
      forall k | 0 <= k < |text| && IsSeparator(text[k])
        ensures text[k] == ' ' && (k + 1 < |text| ==> text[k + 1] != ' ')
      {
        assert IsSpace(text[k]);
      }
    }
    CollapseCollapsed(text);
    StripSingleSpaced(text);
  }

  // ---------------------------------------------------------------------------
  // detect_intent, validate_category, validate_color

  /** `any(keyword in text for keyword in keywords)` */
  function AnyContained(text: string, keywords: seq<string>): (r: bool)
    ensures r <==> exists i :: 0 <= i < |keywords| && Contains(text, keywords[i])
  {
    if keywords == [] then false
    else Contains(text, keywords[0]) || AnyContained(text, keywords[1..])
  }

  /** The intents `detect_intent` reports. */
  datatype Intent = Ubicacion | Ayuda | HablarHumano | Salir
  {
    /** The name `detect_intent` returns for the intent. */
    function Name(): string {
      match this
      case Ubicacion => "ubicacion"
      case Ayuda => "ayuda"
      case HablarHumano => "hablar_humano"
      case Salir => "salir"
    }
  }

  /** `INTENT_KEYWORDS`, in the dictionary's order. */
  const IntentKeywords: seq<(Intent, seq<string>)> := [
    (Ubicacion, ["ubicación", "ubicacion", "dirección", "direccion", "donde están", "donde esta",
                 "como llegar", "donde queda", "local", "tienda", "sede", "oficina", "showroom"]),
    (Ayuda, ["ayuda", "no entiendo", "explicar", "como funciona", "que hago", "confundido",
             "explicame"]),
    (HablarHumano, ["hablar con", "persona", "asesor", "asesora", "humano", "gabriela",
                    "alguien", "operador", "atencion"]),
    (Salir, ["salir", "cancelar", "no quiero", "chau", "adios", "terminar", "ya no"])
  ]

  /** The first entry of `table` one of whose keywords occurs in `text`. */
  function FirstIntent(table: seq<(Intent, seq<string>)>, text: string): (r: Option<nat>)
    ensures r.Some? ==> r.value < |table| && AnyContained(text, table[r.value].1)
    ensures r.Some? ==> forall j :: 0 <= j < r.value ==> !AnyContained(text, table[j].1)
    ensures r.None? <==> forall j :: 0 <= j < |table| ==> !AnyContained(text, table[j].1)
  {
    if table == [] then None
    else if AnyContained(text, table[0].1) then Some(0)
    else match FirstIntent(table[1..], text)
      case None => None
      case Some(i) => Some(i + 1)
  }

  /** `detect_intent`: the first intent, in the order ubicacion, ayuda, hablar_humano,
      salir, with a keyword in the lower-cased text. */
  function DetectIntent(text: string): (r: Option<Intent>)
    ensures r.None? <==>
      forall j :: 0 <= j < |IntentKeywords| ==> !AnyContained(LowerStr(text), IntentKeywords[j].1)
    ensures r.Some? ==>
      exists i :: 0 <= i < |IntentKeywords| && IntentKeywords[i].0 == r.value
        && AnyContained(LowerStr(text), IntentKeywords[i].1)
        && forall j :: 0 <= j < i ==> !AnyContained(LowerStr(text), IntentKeywords[j].1)
  {
    match FirstIntent(IntentKeywords, LowerStr(text))
    case None => None
    case Some(i) => Some(IntentKeywords[i].0)
  }

  /** An intent is reported when one of its keywords occurs and no keyword of an
      earlier intent does, whatever later intents match too. */
  lemma DetectIntentPriority(text: string, i: nat)
    requires i < |IntentKeywords|
    requires AnyContained(LowerStr(text), IntentKeywords[i].1)
    requires forall j :: 0 <= j < i ==> !AnyContained(LowerStr(text), IntentKeywords[j].1)
    ensures DetectIntent(text) == Some(IntentKeywords[i].0)
  {
    var m := FirstIntent(IntentKeywords, LowerStr(text));
    assert m == Some(i);
  }

  /** The light-vehicle answer of `validate_category`. */
  const Camionetas := "Camionetas"

  /** The truck answer of `validate_category`. */
  const CamionIsuzu := "Camión Isuzu"

  const TruckWords: seq<string> := ["camión", "camion", "isuzu"]

  const LightWords: seq<string> := ["camioneta", "camionetas"]

  /** `validate_category` as written: the truck words are tested first. */
  function ValidateCategory(text: string): (r: Option<string>)
    ensures r == Some(CamionIsuzu) <==> AnyContained(LowerStr(text), TruckWords)
  {
    var t := LowerStr(text);
    if AnyContained(t, TruckWords) then Some(CamionIsuzu)
    else if AnyContained(t, LightWords) then Some(Camionetas)
    else None
  }

  /** Every light-vehicle word contains "camion", so the second branch of
      `validate_category` is dead: the answer is never "Camionetas". */
  lemma CamionetasUnreachable(text: string)
    ensures ValidateCategory(text) != Some(Camionetas)
    ensures ValidateCategory(text) == None <==> !AnyContained(LowerStr(text), TruckWords)
  {
    var t := LowerStr(text);
    if AnyContained(t, LightWords) {
      var i :| 0 <= i < |LightWords| && Contains(t, LightWords[i]);
      assert StartsWith(LightWords[i], "camion");
      ContainsPrefix(t, LightWords[i], "camion");
      assert Contains(t, TruckWords[1]);
    }
  }

  /** Concretely: "camioneta" is classified as a truck. */
  lemma CamionetaIsTruck()
    ensures ValidateCategory("camioneta") == Some(CamionIsuzu)
  {
    var t := LowerStr("camioneta");
    assert t == "camioneta";
    ContainsPrefix(t, "camioneta", "camion");
    assert Contains(t, TruckWords[1]);
  }

  /** `validate_category` as its two branches evidently intend: a light vehicle is
      recognised before the truck words, which it contains, are tried. */
  function ValidateCategoryIntended(text: string): (r: Option<string>)
    ensures r == Some(Camionetas) <==> AnyContained(LowerStr(text), LightWords)
    ensures r == Some(CamionIsuzu) <==>
      !AnyContained(LowerStr(text), LightWords) && AnyContained(LowerStr(text), TruckWords)
    ensures r == None <==>
      !AnyContained(LowerStr(text), LightWords) && !AnyContained(LowerStr(text), TruckWords)
  {
    var t := LowerStr(text);
    if AnyContained(t, LightWords) then Some(Camionetas)
    else if AnyContained(t, TruckWords) then Some(CamionIsuzu)
    else None
  }

  /** The two agree except on light vehicles, and they always agree on rejecting. */
  lemma CategoryVersionsAgree(text: string)
    ensures !AnyContained(LowerStr(text), LightWords) ==>
      ValidateCategory(text) == ValidateCategoryIntended(text)
    ensures ValidateCategory(text) == None <==> ValidateCategoryIntended(text) == None
  {
    CamionetasUnreachable(text);
  }

  /** `VALID_OPTIONS['color']`, in list order. */
  const Colors: seq<string> := ["blanco", "rojo", "azul", "negro", "gris", "plata"]

  /** `validate_color`: the first colour of the list (not of the text) that occurs in the
      lower-cased text, capitalised. */
  function ValidateColor(text: string): (r: Option<string>)
    ensures r.None? <==> forall j :: 0 <= j < |Colors| ==> !Contains(LowerStr(text), Colors[j])
    ensures r.Some? ==>
      exists i :: 0 <= i < |Colors| && r.value == Capitalize(Colors[i])
        && Contains(LowerStr(text), Colors[i])
        && forall j :: 0 <= j < i ==> !Contains(LowerStr(text), Colors[j])
  {
    match FirstContained(Colors, LowerStr(text), 0)
    case None => None
    case Some(i) => Some(Capitalize(Colors[i]))
  }

  // ---------------------------------------------------------------------------
  // is_valid_phone_peru, sanitize_text

  predicate AllDigits(s: string) {
    forall k :: 0 <= k < |s| ==> IsDigit(s[k])
  }

  /** `^51\d{9}$` read off the pattern: "51", nine digits, then the end of the text;
      Python's `$` also matches just before a final newline. */
  predicate PhonePattern(phone: string) {
    && StartsWith(phone, "51")
    && 11 <= |phone| && AllDigits(phone[2..11])
    && (|phone| == 11 || (|phone| == 12 && phone[11] == '\n'))
  }

  /** The phones accepted are exactly "51" and nine digits, with or without a trailing
      newline. */
  lemma PhoneShape(phone: string)
    ensures PhonePattern(phone) <==>
      exists ds :: |ds| == 9 && AllDigits(ds) && (phone == "51" + ds || phone == "51" + ds + "\n")
  {
    if PhonePattern(phone) {
      var ds := phone[2..11];
      assert phone[..2] == "51";
      if |phone| == 11 {
        assert phone == "51" + ds;
      } else {
        assert phone == "51" + ds + "\n";
      }
    }
    if ds :| |ds| == 9 && AllDigits(ds) && (phone == "51" + ds || phone == "51" + ds + "\n") {
      assert phone[2..11] == ds;
      assert phone[..2] == "51";
    }
  }

  /** `is_valid_phone_peru`: `re.match(r'^51\d{9}$', phone)` succeeds exactly for "51"
      and nine digits, with or without a trailing newline. */
  function IsValidPhonePeru(phone: string): (valid: bool)
    ensures valid <==> exists ds :: |ds| == 9 && AllDigits(ds) && (phone == "51" + ds || phone == "51" + ds + "\n")
  {
    PhoneShape(phone);
    PhonePattern(phone)
  }

  /** The characters `sanitize_text` keeps: `[\w\s,.]`. */
  predicate IsSanitizeChar(c: char) { IsWordChar(c) || IsSpace(c) || c == ',' || c == '.' }

  /** `sanitize_text`: drops every character outside `[\w\s,.]`, then joins the
      whitespace-separated words with single spaces. Every word character, comma and
      period of the input stays, as often as the input has it, and the words come in the
      input's order. */
  function SanitizeText(text: string): (r: string)
    ensures |r| <= |text|
    ensures SingleSpaced(r)
    ensures forall k :: 0 <= k < |r| ==> r[k] == ' ' || IsWordChar(r[k]) || r[k] == ',' || r[k] == '.'
    ensures forall c :: IsSanitizeChar(c) && !IsSpace(c) ==> Occurrences(r, c) == Occurrences(text, c)
    ensures Split(r) == Split(Keep(text, IsSanitizeChar))
  {
    var kept := Keep(text, IsSanitizeChar);
    var p := (c: char) => IsWordChar(c) || c == ',' || c == '.';
    SplitKeeps(kept, p);
    JoinOfWords(Split(kept));
    JoinKeeps(Split(kept), p);
    JoinSplitShorter(kept);
    JoinSplitKeepsAll(kept);
    KeepKeepsAll(text, IsSanitizeChar);
    SplitJoin(Split(kept));
    Join(Split(kept))
  }

  /** Text that is already single-spaced and holds only `[\w\s,.]` comes back unchanged. */
  lemma SanitizeFixpoint(text: string)
    requires SingleSpaced(text)
    requires forall k :: 0 <= k < |text| ==> IsSanitizeChar(text[k])
    ensures SanitizeText(text) == text
  {
    assert Keep(text, IsSanitizeChar) == text;
    JoinSplitSingleSpaced(text);
  }

  /** Sanitising twice is sanitising once. */
  lemma SanitizeIdempotent(text: string)
    ensures SanitizeText(SanitizeText(text)) == SanitizeText(text)
  {
    var r := SanitizeText(text);
    assert Keep(r, IsSanitizeChar) == r;
    JoinSplitSingleSpaced(r);
  }
}

/**
  `ResponseBuilder`: the retry messages and the lead summary sent to the sales
  team. The copy is reproduced as constants.
*/
module ResponseBuilder {
  import opened Wrappers
  import opened PyText

  // ---------------------------------------------------------------------------
  // format_error_retry

  const WaitingName := "WAITING_NAME"
  const WaitingDniLoc := "WAITING_DNI_LOC"
  const WaitingCategory := "WAITING_CATEGORY"

  /** The retry messages of each step, by retry count. */
  const RetryMessages: map<string, map<int, string>> := map[
    WaitingName := map[
      1 := "⚠️ Por favor, escribe tu nombre completo (nombre y apellido).",
      2 := "Por ejemplo: *Juan Pérez* o *María González*",
      3 := "Necesito tu nombre para continuar. Si tienes problemas, escribe 'ayuda'."
    ],
    WaitingDniLoc := map[
      1 := "⚠️ Por favor, escribe tu DNI (8 dígitos) o RUC (11 dígitos) seguido de tu ciudad.\n\nEjemplo: 10283749, Lima",
      2 := "Formato correcto:\n*DNI ciudad*\n\nEjemplo: 45678912 Arequipa",
      3 := "Si necesitas ayuda, escribe 'ayuda' o te comunico con un asesor."
    ],
    WaitingCategory := map[
      1 := "⚠️ Por favor, selecciona una opción tocando los botones de arriba 👆",
      2 := "Debes presionar uno de los botones para continuar.",
      3 := "¿Necesitas ayuda? Escribe 'ayuda' para asistencia."
    ]
  ]

  /** The message for a step that has no messages of its own. */
  const RetryFallback := "Por favor intenta nuevamente."

  /** `format_error_retry`: `messages.get(step, {})`, then the message for the retry
      count, else the step's third message, else the fallback. */
  function FormatErrorRetry(step: string, retryCount: int): (r: string)
    ensures step in RetryMessages && 1 <= retryCount <= 3 ==> r == RetryMessages[step][retryCount]
    ensures step in RetryMessages && !(1 <= retryCount <= 3) ==> r == RetryMessages[step][3]
    ensures step !in RetryMessages ==> r == RetryFallback
  {
    var stepMessages := if step in RetryMessages then RetryMessages[step] else map[];
    if retryCount in stepMessages then stepMessages[retryCount]
    else if 3 in stepMessages then stepMessages[3]
    else RetryFallback
  }

  /** Past the third retry, the third message keeps being sent. */
  lemma RetryTiersSaturate(step: string, retryCount: int)
    requires retryCount >= 3
    ensures FormatErrorRetry(step, retryCount) == FormatErrorRetry(step, 3)
  {
  }

  // ---------------------------------------------------------------------------
  // format_summary_telegram

  /** A line of the summary: fixed text, or a label followed by `data.get(key,
      fallback)` and a suffix. */
  datatype Line = Fixed(text: string) | Slot(caption: string, key: string, fallback: string, suffix: string)

  /** The summary's lines. */
  const SummaryTemplate: seq<Line> := [
    Fixed("🔔 *NUEVO LEAD - ISUZU CISNE*"),
    Fixed(""),
    Slot("👤 *Cliente:* ", "name", "N/A", ""),
    Slot("📱 *Teléfono:* +", "phone_number", "N/A", ""),
    Slot("🆔 *DNI/RUC:* ", "dni_ruc", "N/A", ""),
    Slot("📍 *Ubicación:* ", "location", "N/A", ""),
    Fixed(""),
    Fixed("🚗 *Interés:*"),
    Slot("• Categoría: ", "category", "N/A", ""),
    Slot("• Modelo: ", "model", "N/A", ""),
    Slot("• Color: ", "color", "N/A", ""),
    Fixed(""),
    Slot("📞 *Llamar:* ", "preferred_call_time", "A coordinar", ""),
    Fixed(""),
    Slot("⏰ *Registrado:* ", "created_at", "", ""),
    Fixed(""),
    Slot("_Estado: ", "status", "Pendiente", "_")
  ]

  /** `data.get(key, fallback)` formatted into the text. Each value of `data` is the
      text Python formats it as, or `None`, which formats as "None". */
  function Render(data: map<string, Option<string>>, key: string, fallback: string): (r: string)
    ensures key !in data ==> r == fallback
    ensures key in data && data[key].Some? ==> r == data[key].value
  {
    if key !in data then fallback
    else match data[key]
      case None => "None"
      case Some(v) => v
  }

  function RenderLine(line: Line, data: map<string, Option<string>>): string {
    match line
    case Fixed(text) => text
    case Slot(caption, key, fallback, suffix) => caption + Render(data, key, fallback) + suffix
  }

  /** Each line rendered and followed by a newline. */
  function RenderLines(lines: seq<Line>, data: map<string, Option<string>>): string {
    if lines == [] then [] else RenderLine(lines[0], data) + "\n" + RenderLines(lines[1..], data)
  }

  /** `format_summary_telegram`: the template, after a leading newline. Every line of the
      template appears in it, rendered from `data` and followed by a newline. */
  function FormatSummaryTelegram(data: map<string, Option<string>>): (r: string)
    ensures |r| > 0 && r[0] == '\n'
    ensures forall i :: 0 <= i < |SummaryTemplate| ==> Contains(r, RenderLine(SummaryTemplate[i], data) + "\n")
  {
    RenderLinesShowsAll(SummaryTemplate, data);
    "\n" + RenderLines(SummaryTemplate, data)
  }

  /** Every line appears after the leading newline too. */
  lemma RenderLinesShowsAll(lines: seq<Line>, data: map<string, Option<string>>)
    ensures forall i :: 0 <= i < |lines| ==> Contains("\n" + RenderLines(lines, data), RenderLine(lines[i], data) + "\n")
  {
    forall i | 0 <= i < |lines|
      ensures Contains("\n" + RenderLines(lines, data), RenderLine(lines[i], data) + "\n")
    {
      RenderLinesShowsLine(lines, data, i);
      ContainsSuffix("\n", RenderLines(lines, data), RenderLine(lines[i], data) + "\n");
    }
  }

  /** Every line appears in the rendering, followed by a newline. */
  lemma {:induction false} RenderLinesShowsLine(lines: seq<Line>, data: map<string, Option<string>>, i: nat)
    requires i < |lines|
    ensures Contains(RenderLines(lines, data), RenderLine(lines[i], data) + "\n")
  {
    var rest := RenderLines(lines[1..], data);
    if i == 0 {
      ContainsInConcat([], RenderLine(lines[0], data) + "\n", rest);
      assert [] + (RenderLine(lines[0], data) + "\n") + rest == RenderLines(lines, data);
    } else {
      RenderLinesShowsLine(lines[1..], data, i - 1);
      ContainsSuffix(RenderLine(lines[0], data) + "\n", rest, RenderLine(lines[i], data) + "\n");
    }
  }

  lemma {:induction false} ContainsSuffix(a: string, b: string, w: string)
    requires Contains(b, w)
    ensures Contains(a + b, w)
    decreases |a|
  {
    if a == [] {
      assert a + b == b;
    } else {
      assert (a + b)[1..] == a[1..] + b;
      ContainsSuffix(a[1..], b, w);
    }
  }

  /** The keys the summary reads. */
  function Keys(lines: seq<Line>): (r: set<string>)
    ensures forall i :: 0 <= i < |lines| && lines[i].Slot? ==> lines[i].key in r
  {
    if lines == [] then {}
    else (if lines[0].Slot? then {lines[0].key} else {}) + Keys(lines[1..])
  }

  /** Rendering reads `data` only at the lines' keys. */
  lemma {:induction false} RenderLinesReadsKeys(lines: seq<Line>, d1: map<string, Option<string>>, d2: map<string, Option<string>>)
    requires forall k :: k in Keys(lines) ==> (k in d1 <==> k in d2) && (k in d1 ==> d1[k] == d2[k])
    ensures RenderLines(lines, d1) == RenderLines(lines, d2)
  {
    if lines != [] {
      assert Keys(lines[1..]) <= Keys(lines);
      RenderLinesReadsKeys(lines[1..], d1, d2);
    }
  }

  /** The summary depends on `data` only at the template's keys: any other entries are
      ignored. */
  lemma SummaryReadsOnlyKeys(d1: map<string, Option<string>>, d2: map<string, Option<string>>)
    requires forall k :: k in Keys(SummaryTemplate) ==> (k in d1 <==> k in d2) && (k in d1 ==> d1[k] == d2[k])
    ensures FormatSummaryTelegram(d1) == FormatSummaryTelegram(d2)
  {
    RenderLinesReadsKeys(SummaryTemplate, d1, d2);
  }
}
