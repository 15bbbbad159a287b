/** What a slug and a project key are made of, said without the chain of replacements that computes them. */
module SlugReference {
  import opened Prelude
  import opened Decimals
  import opened Sequences
  import opened Slugs

  // ─── Slugs in one pass ─────────────────────────────────

  /** The white space of the regular expression \s. */
  const WHITE_SPACE: set<int> := {
    9, 10, 11, 12, 13, 32, 160, 5760, 8192, 8193, 8194, 8195, 8196, 8197, 8198, 8199, 8200, 8201, 8202, 8232, 8233,
    8239, 8287, 12288, 65279
  }

  predicate Separates(c: char) {
    c == '-' || c == '_' || c as int in WHITE_SPACE
  }

  predicate SmallOrDigit(c: char) {
    'a' <= c <= 'z' || '0' <= c <= '9'
  }

  /** The letters and digits of a text in order, with a hyphen where separators, and perhaps other characters, stand
      between two of them. `started` says that one went before, `gap` that a separator came since. */
  function OnePass(text: string, started: bool, gap: bool): string {
    if text == "" then ""
    else if SmallOrDigit(text[0]) then
      (if started && gap then "-" else "") + [text[0]] + OnePass(text[1..], true, false)
    else OnePass(text[1..], started, gap || Separates(text[0]))
  }

  const Gap: char -> bool := c => Separates(c)

  lemma SpacesAre(c: char)
    ensures Space(c) <==> c as int in WHITE_SPACE
  {
  }

  lemma LettersDoNotSeparate(c: char)
    ensures SmallOrDigit(c) ==> !Separates(c)
  {
  }

  lemma {:induction false} OnePassKeeps(text: string, started: bool, gap: bool)
    requires forall c | c in text :: !('A' <= c <= 'Z')
    ensures OnePass(Keep(text), started, gap) == OnePass(text, started, gap)
    ensures forall c | c in Keep(text) :: SmallOrDigit(c) || Separates(c)
  {
    if text != "" {
      var c := text[0];
      SpacesAre(c);
      var kept := Keep(text[1..]);
      var now := gap || Separates(c);
      hide WHITE_SPACE, Space;
      assert c in text && forall x | x in text[1..] :: x in text;
      LettersDoNotSeparate(c);
      OnePassKeeps(text[1..], started, now);
      if SmallOrDigit(c) { OnePassKeeps(text[1..], true, false); }
      if Word(c) || Separates(c) {
        assert Keep(text) == [c] + kept && ([c] + kept)[1..] == kept;
        assert forall x | x in Keep(text) :: x == c || x in kept;
      } else {
        assert Keep(text) == "" + kept == kept;
      }
    }
  }

  /** A collapsed text starts as the text does. */
  lemma CollapsedHead(s: string, gap: char -> bool)
    ensures Hyphenate(s, gap) == "" <==> s == ""
    ensures s != "" ==> Hyphenate(s, gap)[0] == if gap(s[0]) then '-' else s[0]
  {
    if s != "" && gap(s[0]) && |s| > 1 && gap(s[1]) { CollapsedHead(s[1..], gap); }
  }

  lemma HyphenateHead(c: char, rest: string, gap: char -> bool)
    ensures Hyphenate([c] + rest, gap) ==
            if !gap(c) then [c] + Hyphenate(rest, gap)
            else if rest != "" && gap(rest[0]) then Hyphenate(rest, gap)
            else "-" + Hyphenate(rest, gap)
  {
    assert ([c] + rest)[1..] == rest;
  }

  /** Collapsing blanks and underscores and then hyphens is collapsing all separators at once. */
  lemma {:induction false} CollapseOnce(s: string)
    ensures Hyphenate(Hyphenate(s, BlankOrUnderscore), Hyphen) == Hyphenate(s, Gap)
  {
    if s != "" {
      var c, rest := s[0], s[1..];
      assert s == [c] + rest;
      SpacesAre(c);
      if rest != "" { SpacesAre(rest[0]); }
      CollapseOnce(rest);
      hide WHITE_SPACE, Space, Hyphenate;
      HyphenateHead(c, rest, BlankOrUnderscore);
      HyphenateHead(c, rest, Gap);
      CollapsedHead(rest, BlankOrUnderscore);
      var half := Hyphenate(rest, BlankOrUnderscore);
      HyphenateHead(c, half, Hyphen);
      HyphenateHead('-', half, Hyphen);
    }
  }

  function StripTail(s: string): string {
    if s != "" && s[|s| - 1] == '-' then s[..|s| - 1] else s
  }

  lemma StripEndsIs(s: string)
    ensures s == "" || s[0] != '-' ==> StripEnds(s) == StripTail(s)
    ensures StripEnds("-" + s) == StripTail(s)
  {
    assert ("-" + s)[1..] == s;
  }

  lemma OnePassHead(c: char, rest: string, started: bool, gap: bool)
    ensures OnePass([c] + rest, started, gap) ==
            if SmallOrDigit(c) then Hyphened(started && gap, [c] + OnePass(rest, true, false))
            else OnePass(rest, started, gap || Separates(c))
  {
    assert ([c] + rest)[1..] == rest;
  }

  lemma StripTailCons(c: char, s: string)
    requires s != "" || c != '-'
    ensures StripTail([c] + s) == [c] + StripTail(s)
  {
  }

  function Hyphened(gap: bool, k: string): string {
    if gap then "-" + k else k
  }

  lemma LetterTail(c: char, rest: string, gap: bool)
    requires SmallOrDigit(c)
    ensures StripTail(Hyphenate(Hyphened(gap, [c] + rest), Gap)) ==
            Hyphened(gap, [c] + StripTail(Hyphenate(rest, Gap)))
  {
    LettersDoNotSeparate(c);
    hide WHITE_SPACE, Hyphenate;
    HyphenateHead(c, rest, Gap);
    StripTailCons(c, Hyphenate(rest, Gap));
    if gap {
      HyphenateHead('-', [c] + rest, Gap);
      StripTailCons('-', [c] + Hyphenate(rest, Gap));
      assert "-" + ([c] + rest) == ['-'] + ([c] + rest);
    }
  }

  lemma SeparatorTail(c: char, rest: string, gap: bool)
    requires Separates(c)
    ensures Hyphenate(Hyphened(gap, [c] + rest), Gap) == Hyphenate("-" + rest, Gap)
  {
    hide WHITE_SPACE, Hyphenate;
    HyphenateHead(c, rest, Gap);
    HyphenateHead('-', rest, Gap);
    assert "-" + rest == ['-'] + rest;
    if gap {
      HyphenateHead('-', [c] + rest, Gap);
      assert "-" + ([c] + rest) == ['-'] + ([c] + rest);
    }
  }

  /** After its first letter, what is left of a text, given whether a separator came since the last letter. */
  lemma {:induction false} TailInOnePass(k: string, gap: bool)
    requires forall c | c in k :: SmallOrDigit(c) || Separates(c)
    ensures OnePass(k, true, gap) == StripTail(Hyphenate(Hyphened(gap, k), Gap))
  {
    if k == "" {
      EmptyCollapse();
      assert "-" + "" == "-";
    } else {
      var c, rest := k[0], k[1..];
      assert k == [c] + rest && c in k && forall x | x in rest :: x in k;
      LettersDoNotSeparate(c);
      OnePassHead(c, rest, true, gap);
      hide WHITE_SPACE, Hyphenate, StripTail, Separates, OnePass, SmallOrDigit;
      if SmallOrDigit(c) {
        TailInOnePass(rest, false);
        LetterTail(c, rest, gap);
      } else {
        TailInOnePass(rest, true);
        SeparatorTail(c, rest, gap);
      }
    }
  }

  lemma EmptyCollapse()
    ensures Hyphenate("", Gap) == "" && Hyphenate("-", Gap) == "-"
  {
    HyphenateHead('-', "", Gap);
    assert ['-'] + "" == "-";
  }

  /** What comes before the first letter leaves no hyphen. */
  lemma {:induction false} KeptInOnePass(k: string, gap: bool)
    requires forall c | c in k :: SmallOrDigit(c) || Separates(c)
    ensures OnePass(k, false, gap) == StripEnds(Hyphenate(k, Gap))
  {
    if k == "" {
      EmptyCollapse();
    } else {
      var c, rest := k[0], k[1..];
      assert k == [c] + rest && c in k && forall x | x in rest :: x in k;
      LettersDoNotSeparate(c);
      CollapsedHead(rest, Gap);
      HyphenateHead(c, rest, Gap);
      var collapsed := Hyphenate(rest, Gap);
      OnePassHead(c, rest, false, gap);
      StripEndsIs(collapsed);
      hide WHITE_SPACE, Hyphenate, Separates, OnePass, StripEnds, StripTail;
      if SmallOrDigit(c) {
        TailInOnePass(rest, false);
        StripTailCons(c, collapsed);
        StripEndsIs([c] + collapsed);
      } else {
        KeptInOnePass(rest, true);
      }
    }
  }

  /** The slug of a name is the letters and digits of its small unaccented form, in order, with one hyphen where a
      separator stands between two of them, and nothing else. */
  lemma SlugInOnePass(name: string, rules: TextRules)
    requires Sensible(rules)
    ensures GenerateSlug(name, rules) == OnePass(rules.plain(TrimRight(TrimLeft(rules.lower(name)))), false, false)
  {
    var text := rules.plain(TrimRight(TrimLeft(rules.lower(name))));
    assert forall c | c in text :: !('A' <= c <= 'Z') by { assert forall c | c in text :: !Upper(c); }
    hide Sensible;
    OnePassKeeps(text, false, false);
    CollapseOnce(Keep(text));
    KeptInOnePass(Keep(text), false);
  }

  // ─── The candidates ────────────────────────────────────

  lemma NumeralsTwoToTen()
    ensures Numeral(2) == "2" && Numeral(3) == "3" && Numeral(4) == "4" && Numeral(5) == "5" && Numeral(6) == "6"
    ensures Numeral(7) == "7" && Numeral(8) == "8" && Numeral(9) == "9" && Numeral(10) == "10"
  {
  }

  /** The eleven slugs that are tried, in order. */
  lemma SlugCandidatesAre(baseSlug: string, suffix: string)
    ensures var base := if baseSlug == "" then "workspace" else baseSlug;
            SlugCandidates(baseSlug, suffix, MAX_SLUG_RETRY + 1) ==
            [base, base + "-" + "2", base + "-" + "3", base + "-" + "4", base + "-" + "5", base + "-" + "6",
             base + "-" + "7", base + "-" + "8", base + "-" + "9", base + "-" + "10", base + "-" + suffix]
  {
    NumeralsTwoToTen();
    hide Numeral;
  }

  /** The ten project keys that are tried: the number overwrites what would not fit into ten characters. */
  lemma KeyCandidatesAre(baseKey: string, random4: string, random2: string)
    requires |random2| == 2
    ensures var base := if baseKey == "" then random4 else baseKey;
            var (ten, nine, eight) := (if |base| > 10 then base[..10] else base, if |base| > 9 then base[..9] else base,
                                       if |base| > 8 then base[..8] else base);
            KeyCandidates(baseKey, random4, random2, MAX_KEY_RETRY + 1) ==
            [ten, nine + "2", nine + "3", nine + "4", nine + "5", nine + "6", nine + "7", nine + "8", nine + "9",
             eight + random2]
  {
    NumeralsTwoToTen();
    hide Numeral;
  }

  // ─── Project keys from names ───────────────────────────

  predicate Capital(c: char) {
    'A' <= c <= 'Z'
  }

  /** The letters that no letter goes right before. */
  function Starts(s: string, before: bool): string {
    if s == "" then ""
    else (if Capital(s[0]) && !before then [s[0]] else "") + Starts(s[1..], Capital(s[0]))
  }

  function LeadingRun(s: string): string {
    if s != "" && Capital(s[0]) then [s[0]] + LeadingRun(s[1..]) else ""
  }

  function FirstRun(s: string): string {
    if s == "" then "" else if Capital(s[0]) then LeadingRun(s) else FirstRun(s[1..])
  }

  lemma InitialsCons(w: string, words: seq<string>)
    requires forall v | v in [w] + words :: v != "" && Letters(v)
    ensures (forall v | v in words :: v != "" && Letters(v)) && w != ""
    ensures Initials([w] + words) == [w[0]] + Initials(words)
  {
    assert ([w] + words)[1..] == words && w in [w] + words && forall v | v in words :: v in [w] + words;
  }

  lemma SameTail(a: char, x: string, b: char, y: string)
    requires [a] + x == [b] + y
    ensures a == b && x == y
  {
    assert ([a] + x)[0] == a && ([a] + x)[1..] == x && ([b] + y)[1..] == y;
  }

  lemma WordsCons(c: char, tail: string)
    ensures var rest := Words(tail);
            Words([c] + tail) ==
            if !Capital(c) then rest
            else if tail != "" && Capital(tail[0]) && rest != [] then [[c] + rest[0]] + rest[1..]
            else [[c]] + rest
  {
    assert ([c] + tail)[1..] == tail;
  }

  lemma StartsCons(c: char, rest: string, before: bool)
    ensures Starts([c] + rest, before) ==
            if Capital(c) && !before then [c] + Starts(rest, true) else Starts(rest, Capital(c))
    ensures LeadingRun([c] + rest) == if Capital(c) then [c] + LeadingRun(rest) else ""
    ensures FirstRun([c] + rest) == if Capital(c) then [c] + LeadingRun(rest) else FirstRun(rest)
  {
    assert ([c] + rest)[1..] == rest;
  }

  lemma {:induction false} WordsAre(s: string)
    ensures Initials(Words(s)) == Starts(s, false) && (Words(s) == [] <==> Starts(s, false) == "")
    ensures Words(s) != [] ==> Words(s)[0] == FirstRun(s)
  {
    if s != "" {
      var c, tail := s[0], s[1..];
      var words, rest := Words(s), Words(tail);
      assert s == [c] + tail;
      WordsAre(tail);
      WordsCons(c, tail);
      StartsCons(c, tail, false);
      if tail == "" {
        assert rest == [] && LeadingRun(tail) == "" && Starts(tail, true) == Starts(tail, false) == "" == Initials([]);
        if Capital(c) { InitialsCons([c], []); }
      } else {
        assert tail == [tail[0]] + tail[1..];
        StartsCons(tail[0], tail[1..], false);
        StartsCons(tail[0], tail[1..], true);
        hide Words, Initials, Starts, LeadingRun, FirstRun, Letters;
        if Capital(c) && Capital(tail[0]) {
          assert rest == [rest[0]] + rest[1..];
          InitialsCons(rest[0], rest[1..]);
          InitialsCons([c] + rest[0], rest[1..]);
          SameTail(rest[0][0], Initials(rest[1..]), tail[0], Starts(tail[1..], true));
        } else if Capital(c) {
          InitialsCons([c], rest);
        }
      }
    }
  }

  /** The key of a name in capitals without accents: the first letters of its words, five at most; of a single word its
      first five letters; with random letters where there are too few. */
  lemma ProjectKeyIs(cleaned: string, random4: string, random2: string)
    requires |random4| == 4 && |random2| == 2
    ensures var starts, word := Starts(cleaned, false), FirstRun(cleaned);
            GenerateProjectKey(cleaned, random4, random2) ==
            if starts == "" then random4
            else if |starts| >= 2 then (if |starts| > 5 then starts[..5] else starts)
            else if |word| >= 2 then (if |word| > 5 then word[..5] else word)
            else word + random2
  {
    WordsAre(cleaned);
    var words := Words(cleaned);
    if words != [] { assert words[0] in words; }
    hide Starts, FirstRun, Words;
  }
}
