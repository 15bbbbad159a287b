/** Workspace slugs and project keys: deriving one from a name, and finding a free one on collision. */
module Slugs {
  import opened Prelude
  import opened Decimals
  import opened Sequences

  // ─── Slugs from names ──────────────────────────────────

  predicate Space(c: char) {
    c in " \t\n\r" || c == 11 as char || c == 12 as char || c == 0xA0 as char || c == 0x1680 as char ||
    0x2000 as char <= c <= 0x200A as char || c == 0x2028 as char || c == 0x2029 as char || c == 0x202F as char ||
    c == 0x205F as char || c == 0x3000 as char || c == 0xFEFF as char
  }

  predicate Upper(c: char) {
    'A' <= c <= 'Z'
  }

  predicate SlugChar(c: char) {
    'a' <= c <= 'z' || '0' <= c <= '9'
  }

  /** \w */
  predicate Word(c: char) {
    SlugChar(c) || Upper(c) || c == '_'
  }

  function TrimLeft(s: string): string {
    if s != "" && Space(s[0]) then TrimLeft(s[1..]) else s
  }

  function TrimRight(s: string): string {
    if s != "" && Space(s[|s| - 1]) then TrimRight(s[..|s| - 1]) else s
  }

  function Keep(s: string): string {
    if s == "" then ""
    else (if Word(s[0]) || Space(s[0]) || s[0] == '-' then [s[0]] else "") + Keep(s[1..])
  }

  /** Every run of characters that satisfy `gap` becomes one hyphen. */
  function Hyphenate(s: string, gap: char -> bool): string {
    if s == "" then ""
    else if !gap(s[0]) then [s[0]] + Hyphenate(s[1..], gap)
    else if |s| > 1 && gap(s[1]) then Hyphenate(s[1..], gap)
    else "-" + Hyphenate(s[1..], gap)
  }

  /** /^-|-$/g */
  function StripEnds(s: string): string {
    var t := if s != "" && s[0] == '-' then s[1..] else s;
    if t != "" && t[|t| - 1] == '-' then t[..|t| - 1] else t
  }

  const BlankOrUnderscore: char -> bool := c => Space(c) || c == '_'
  const Hyphen: char -> bool := c => c == '-'

  /** The language's own text functions: lower-casing, and decomposing with accents and stroked d removed. */
  datatype TextRules = TextRules(lower: string -> string, plain: string -> string)

  /** What is used of them: they leave no capital letter, and do not touch text of slug characters and hyphens. */
  ghost predicate Sensible(rules: TextRules) {
    && (forall s, c | c in rules.plain(TrimRight(TrimLeft(rules.lower(s)))) :: !Upper(c))
    && (forall s | SlugText(s) :: rules.lower(s) == s && rules.plain(s) == s)
  }

  function GenerateSlug(name: string, rules: TextRules): string {
    var text := rules.plain(TrimRight(TrimLeft(rules.lower(name))));
    StripEnds(Hyphenate(Hyphenate(Keep(text), BlankOrUnderscore), Hyphen))
  }

  predicate SlugText(s: string) {
    forall c | c in s :: SlugChar(c) || c == '-'
  }

  /** Runs of slug characters separated by single hyphens; or nothing. */
  predicate WellFormedSlug(s: string) {
    && SlugText(s)
    && (forall i | 0 <= i < |s| - 1 :: !(s[i] == '-' && s[i + 1] == '-'))
    && (s != "" ==> s[0] != '-' && s[|s| - 1] != '-')
  }

  lemma {:induction false} KeepKeeps(s: string)
    requires forall c | c in s :: !Upper(c)
    ensures forall c | c in Keep(s) :: SlugChar(c) || Space(c) || c == '_' || c == '-'
    ensures SlugText(s) ==> Keep(s) == s
  {
    if s != "" {
      KeepKeeps(s[1..]);
      assert s == [s[0]] + s[1..];
    }
  }

  lemma {:induction false} HyphenateChars(s: string, gap: char -> bool)
    ensures forall c | c in Hyphenate(s, gap) :: c == '-' || (c in s && !gap(c))
    ensures (forall c | c in s :: !gap(c)) ==> Hyphenate(s, gap) == s
  {
    if s != "" {
      HyphenateChars(s[1..], gap);
      assert s == [s[0]] + s[1..];
    }
  }

  predicate SingleHyphens(s: string) {
    forall i | 0 <= i < |s| - 1 :: !(s[i] == '-' && s[i + 1] == '-')
  }

  /** Collapsing hyphens leaves single ones, starts with a hyphen only if the text did, and changes nothing when they
      were single. */
  lemma {:induction false} HyphensCollapse(s: string)
    ensures var t := Hyphenate(s, Hyphen);
            && SingleHyphens(t) && (t == "" <==> s == "") && (s != "" ==> (t[0] == '-' <==> s[0] == '-'))
            && (SingleHyphens(s) ==> t == s)
  {
    if s != "" {
      HyphensCollapse(s[1..]);
      var rest := Hyphenate(s[1..], Hyphen);
      assert s == [s[0]] + s[1..];
      if SingleHyphens(s) {
        forall i | 0 <= i < |s[1..]| - 1 ensures !(s[1..][i] == '-' && s[1..][i + 1] == '-') {
          assert s[1..][i] == s[i + 1] && s[1..][i + 1] == s[i + 2];
        }
        assert |s| > 1 ==> !(s[0] == '-' && s[1] == '-');
      }
    }
  }

  lemma StrippedEnds(s: string)
    requires SlugText(s) && SingleHyphens(s)
    ensures WellFormedSlug(StripEnds(s))
    ensures WellFormedSlug(s) ==> StripEnds(s) == s
  {
    var t := if s != "" && s[0] == '-' then s[1..] else s;
    assert forall i | 0 <= i < |t| - 1 :: !(t[i] == '-' && t[i + 1] == '-');
    assert forall c | c in t :: c in s;
    var r := StripEnds(s);
    assert forall c | c in r :: c in t;
    assert |s| > 1 ==> !(s[0] == '-' && s[1] == '-');
    assert |t| > 1 ==> !(t[|t| - 2] == '-' && t[|t| - 1] == '-');
  }

  /** Whatever the name, the slug is well formed. */
  lemma SlugIsWellFormed(name: string, rules: TextRules)
    requires Sensible(rules)
    ensures var slug := GenerateSlug(name, rules);
            && WellFormedSlug(slug)
            && (forall c | c in slug :: 'a' <= c <= 'z' || '0' <= c <= '9' || c == '-')
            && (forall i | 0 <= i < |slug| && slug[i] == '-' :: 0 < i < |slug| - 1 && slug[i + 1] != '-')
  {
    var text := rules.plain(TrimRight(TrimLeft(rules.lower(name))));
    KeepKeeps(text);
    var kept := Keep(text);
    HyphenateChars(kept, BlankOrUnderscore);
    var joined := Hyphenate(kept, BlankOrUnderscore);
    HyphenateChars(joined, Hyphen);
    HyphensCollapse(joined);
    StrippedEnds(Hyphenate(joined, Hyphen));
  }

  /** The slugs are exactly the names that are their own slug, so generating one twice is generating it once. */
  lemma SlugFixedIff(name: string, rules: TextRules)
    requires Sensible(rules)
    ensures GenerateSlug(name, rules) == name <==> WellFormedSlug(name)
    ensures GenerateSlug(GenerateSlug(name, rules), rules) == GenerateSlug(name, rules)
  {
    SlugIsWellFormed(name, rules);
    var slug := GenerateSlug(name, rules);
    WellFormedIsFixed(slug, rules);
    if WellFormedSlug(name) {
      WellFormedIsFixed(name, rules);
    }
  }

  lemma WellFormedIsFixed(s: string, rules: TextRules)
    requires Sensible(rules) && WellFormedSlug(s)
    ensures GenerateSlug(s, rules) == s
  {
    if s != "" {
      assert s[0] in s && s[|s| - 1] in s;
      assert !Space(s[0]) && !Space(s[|s| - 1]);
    }
    assert TrimRight(TrimLeft(s)) == s;
    forall c | c in s ensures !Upper(c) && !BlankOrUnderscore(c) {
    }
    KeepKeeps(s);
    HyphenateChars(s, BlankOrUnderscore);
    HyphensCollapse(s);
    StrippedEnds(s);
  }

  // ─── The first free candidate ──────────────────────────

  function FirstFree(candidates: seq<string>, taken: set<string>): Option<string> {
    if candidates == [] then None
    else if candidates[0] !in taken then Some(candidates[0])
    else FirstFree(candidates[1..], taken)
  }

  /** It is the one free candidate before which all are taken; there is none exactly when all are. */
  lemma {:induction false} FirstFreeIs(candidates: seq<string>, taken: set<string>, i: nat)
    requires i <= |candidates| && (forall j | 0 <= j < i :: candidates[j] in taken)
    requires i < |candidates| ==> candidates[i] !in taken
    ensures FirstFree(candidates, taken) == if i < |candidates| then Some(candidates[i]) else None
  {
    if i > 0 {
      assert candidates[0] in taken;
      forall j | 0 <= j < i - 1 ensures candidates[1..][j] in taken {
        assert candidates[1..][j] == candidates[j + 1];
      }
      FirstFreeIs(candidates[1..], taken, i - 1);
    }
  }

  /** How many candidates come before the first free one. */
  function TakenBefore(candidates: seq<string>, taken: set<string>): (i: nat)
    ensures i <= |candidates| && (i < |candidates| ==> candidates[i] !in taken)
    ensures forall j | 0 <= j < i :: candidates[j] in taken
  {
    if candidates == [] || candidates[0] !in taken then 0 else 1 + TakenBefore(candidates[1..], taken)
  }

  /** Fewer names taken than candidates on offer leaves one free. */
  lemma {:induction false} Pigeonhole(candidates: seq<string>, taken: set<string>)
    requires Distinct(candidates) && |taken| < |candidates|
    ensures exists i :: 0 <= i < |candidates| && candidates[i] !in taken
  {
    if candidates[0] in taken {
      var rest := candidates[1..];
      assert forall i | 0 <= i < |rest| :: rest[i] == candidates[i + 1];
      Pigeonhole(rest, taken - {candidates[0]});
      var k :| 0 <= k < |rest| && rest[k] !in taken - {candidates[0]};
      assert candidates[k + 1] !in taken;
    }
  }

  const MAX_SLUG_RETRY: nat := 10

  function CandidateSlug(baseSlug: string, attempt: nat, suffix: string): string {
    var safeBase := if baseSlug == "" then "workspace" else baseSlug;
    if attempt == 0 then safeBase
    else if attempt < MAX_SLUG_RETRY then safeBase + "-" + Numeral(attempt + 1)
    else safeBase + "-" + suffix
  }

  function SlugCandidates(baseSlug: string, suffix: string, n: nat): (candidates: seq<string>)
    ensures |candidates| == n && forall a | 0 <= a < n :: candidates[a] == CandidateSlug(baseSlug, a, suffix)
  {
    seq(n, a requires 0 <= a < n => CandidateSlug(baseSlug, a, suffix))
  }

  /** The retry loop: the unique index of the owner's slugs refuses a taken one. `suffix` is what the random suffix
      comes out as. */
  method CreateWithUniqueSlug(baseSlug: string, taken: set<string>, suffix: string) returns (r: Option<string>)
    ensures r == FirstFree(SlugCandidates(baseSlug, suffix, MAX_SLUG_RETRY + 1), taken)
  {
    ghost var all := SlugCandidates(baseSlug, suffix, MAX_SLUG_RETRY + 1);
    var attempt := 0;
    while attempt <= MAX_SLUG_RETRY
      invariant 0 <= attempt <= MAX_SLUG_RETRY + 1
      invariant forall j | 0 <= j < attempt :: all[j] in taken
    {
      var slug := CandidateSlug(baseSlug, attempt, suffix);
      if slug !in taken {
        FirstFreeIs(all, taken, attempt);
        return Some(slug);
      }
      attempt := attempt + 1;
    }
    FirstFreeIs(all, taken, attempt);
    return None;
  }

  /** Base, base-2, base-3, and so on up to base-10. */
  lemma NumberedCandidates(baseSlug: string, suffix: string, attempt: nat)
    requires baseSlug != "" && attempt < 10
    ensures var slug := CandidateSlug(baseSlug, attempt, suffix);
            if attempt == 0 then slug == baseSlug
            else |slug| > |baseSlug| + 1 && slug[..|baseSlug| + 1] == baseSlug + "-" &&
                 AllDigits(slug[|baseSlug| + 1..]) &&
                 ValueOf(slug[|baseSlug| + 1..]) == attempt + 1
  {
    if attempt > 0 {
      ValueOfNumeral(attempt + 1);
      assert CandidateSlug(baseSlug, attempt, suffix)[|baseSlug| + 1..] == Numeral(attempt + 1);
    }
  }

  lemma SlugCandidatesDiffer(baseSlug: string, suffix: string, i: nat, j: nat)
    requires i < j < 10
    ensures CandidateSlug(baseSlug, i, suffix) != CandidateSlug(baseSlug, j, suffix)
  {
    var safeBase := if baseSlug == "" then "workspace" else baseSlug;
    var a, b := CandidateSlug(baseSlug, i, suffix), CandidateSlug(baseSlug, j, suffix);
    if i == 0 {
      assert |b| > |a|;
    } else {
      NumeralsDiffer(i + 1, j + 1);
      assert a[|safeBase| + 1..] == Numeral(i + 1) && b[|safeBase| + 1..] == Numeral(j + 1);
    }
  }

  /** An owner with fewer than ten slugs always gets a predictable one: the base or one of its numbered forms. */
  lemma PredictableSlug(baseSlug: string, taken: set<string>, suffix: string)
    requires |taken| < 10
    ensures var r := FirstFree(SlugCandidates(baseSlug, suffix, MAX_SLUG_RETRY + 1), taken);
            r.Some? && exists a :: 0 <= a < 10 && r.value == CandidateSlug(baseSlug, a, suffix)
  {
    var ten, all := SlugCandidates(baseSlug, suffix, MAX_SLUG_RETRY),
        SlugCandidates(baseSlug, suffix, MAX_SLUG_RETRY + 1);
    forall i, j | 0 <= i < j < |ten| ensures ten[i] != ten[j] {
      SlugCandidatesDiffer(baseSlug, suffix, i, j);
    }
    Pigeonhole(ten, taken);
    var k :| 0 <= k < |ten| && ten[k] !in taken;
    assert all[k] == ten[k];
    var i := TakenBefore(all, taken);
    assert i <= k;
    FirstFreeIs(all, taken, i);
  }

  // ─── Project keys ──────────────────────────────────────

  const MAX_KEY_RETRY: nat := 9
  const MAX_KEY_LENGTH: nat := 10

  predicate KeyChar(c: char) {
    Upper(c) || '0' <= c <= '9'
  }

  /** /^[A-Z][A-Z0-9]{1,9}$/ */
  predicate WellFormedKey(key: string) {
    2 <= |key| <= MAX_KEY_LENGTH && Upper(key[0]) && forall c | c in key :: KeyChar(c)
  }

  predicate Letters(s: string) {
    forall c | c in s :: Upper(c)
  }

  function Take(s: string, n: nat): string {
    if |s| <= n then s else s[..n]
  }

  /** The maximal runs of letters. */
  function Words(s: string): (words: seq<string>)
    ensures forall w | w in words :: w != "" && Letters(w)
  {
    if s == "" then []
    else
      var rest := Words(s[1..]);
      if !Upper(s[0]) then rest
      else if |s| > 1 && Upper(s[1]) && rest != [] then
        var first := [s[0]] + rest[0];
        assert rest[0] in rest && forall c | c in first :: c == s[0] || c in rest[0];
        assert forall w | w in [first] + rest[1..] :: w == first || w in rest;
        [first] + rest[1..]
      else
        assert forall w | w in [[s[0]]] + rest :: w == [s[0]] || w in rest;
        [[s[0]]] + rest
  }

  function Initials(words: seq<string>): (s: string)
    requires forall w | w in words :: w != "" && Letters(w)
    ensures |s| == |words| && Letters(s)
  {
    if words == [] then ""
    else
      assert words[0] in words && words[0][0] in words[0] && forall w | w in words[1..] :: w in words;
      var rest := Initials(words[1..]);
      var first := words[0][0];
      assert Letters(words[0]) && first in words[0];
      assert Upper(first);
      assert forall c | c in [first] + rest :: c == first || c in rest;
      [first] + rest
  }

  /** `cleaned` is the name with accents removed and in capitals; `random4` and `random2` are random letters. */
  function GenerateProjectKey(cleaned: string, random4: string, random2: string): string
    requires |random4| == 4 && |random2| == 2
  {
    var words := Words(cleaned);
    if words == [] then random4
    else
      var initials := Take(Initials(words), 5);
      if |words| >= 2 && |initials| >= 2 then initials
      else if |words[0]| >= 2 then Take(words[0], 5)
      else Take(words[0] + random2, 5)
  }

  /** Every generated key satisfies what is asked of a key that a user types, and has at most five letters. */
  lemma GeneratedKeyIsWellFormed(cleaned: string, random4: string, random2: string)
    requires |random4| == 4 && |random2| == 2 && Letters(random4) && Letters(random2)
    ensures var key := GenerateProjectKey(cleaned, random4, random2);
            WellFormedKey(key) && 2 <= |key| <= 5 && forall c | c in key :: 'A' <= c <= 'Z'
  {
    var words := Words(cleaned);
    var key := GenerateProjectKey(cleaned, random4, random2);
    if words != [] {
      assert words[0] in words;
    }
    assert key[0] in key;
  }

  /** A single word gives its first five letters; the comment above the function says four. */
  lemma SingleWordTakesFive(random4: string, random2: string)
    requires |random4| == 4 && |random2| == 2
    ensures GenerateProjectKey("MARKETING", random4, random2) == "MARKE"
  {
    WordOfLetters("MARKETING");
    assert "MARKETING"[..5] == "MARKE";
  }

  lemma {:induction false} WordOfLetters(s: string)
    requires s != "" && Letters(s)
    ensures Words(s) == [s]
  {
    assert s[0] in s;
    if |s| > 1 {
      assert s[1] in s;
      WordOfLetters(s[1..]);
      assert [s[0]] + s[1..] == s;
    } else {
      assert s == [s[0]];
    }
  }

  function CandidateProjectKey(baseKey: string, attempt: nat, random4: string, random2: string): string
    requires |random2| == 2
  {
    var safeBase := if baseKey == "" then random4 else baseKey;
    if attempt == 0 then Take(safeBase, MAX_KEY_LENGTH)
    else
      var suffix := if attempt < MAX_KEY_RETRY then Numeral(attempt + 1) else random2;
      Take(safeBase, if |suffix| <= MAX_KEY_LENGTH then MAX_KEY_LENGTH - |suffix| else 0) + suffix
  }

  function KeyCandidates(baseKey: string, random4: string, random2: string, n: nat): (candidates: seq<string>)
    requires |random2| == 2
    ensures |candidates| == n && forall a | 0 <= a < n ::
            candidates[a] == CandidateProjectKey(baseKey, a, random4, random2)
  {
    seq(n, a requires 0 <= a < n => CandidateProjectKey(baseKey, a, random4, random2))
  }

  method CreateWithUniqueKey(baseKey: string, taken: set<string>, random4: string, random2: string)
    returns (r: Option<string>)
    requires |random2| == 2
    ensures r == FirstFree(KeyCandidates(baseKey, random4, random2, MAX_KEY_RETRY + 1), taken)
  {
    ghost var all := KeyCandidates(baseKey, random4, random2, MAX_KEY_RETRY + 1);
    var attempt := 0;
    while attempt <= MAX_KEY_RETRY
      invariant 0 <= attempt <= MAX_KEY_RETRY + 1
      invariant forall j | 0 <= j < attempt :: all[j] in taken
    {
      var key := CandidateProjectKey(baseKey, attempt, random4, random2);
      if key !in taken {
        FirstFreeIs(all, taken, attempt);
        return Some(key);
      }
      attempt := attempt + 1;
    }
    FirstFreeIs(all, taken, attempt);
    return None;
  }

  lemma OneDigit(attempt: nat)
    requires 1 <= attempt < MAX_KEY_RETRY
    ensures Numeral(attempt + 1) == [Digit(attempt + 1)]
  {
  }

  /** A well-formed base gives well-formed keys at every attempt. */
  lemma CandidateKeyIsWellFormed(baseKey: string, attempt: nat, random4: string, random2: string)
    requires 2 <= |baseKey| <= 10 && 'A' <= baseKey[0] <= 'Z'
    requires forall c | c in baseKey :: 'A' <= c <= 'Z' || '0' <= c <= '9'
    requires |random2| == 2 && Letters(random2)
    ensures var key := CandidateProjectKey(baseKey, attempt, random4, random2);
            WellFormedKey(key) && 2 <= |key| <= 10 && 'A' <= key[0] <= 'Z' &&
            forall c | c in key :: 'A' <= c <= 'Z' || '0' <= c <= '9'
  {
    assert WellFormedKey(baseKey) by { assert forall c | c in baseKey :: KeyChar(c); }
    var key := CandidateProjectKey(baseKey, attempt, random4, random2);
    if 0 < attempt < MAX_KEY_RETRY {
      OneDigit(attempt);
    }
    assert forall c | c in key :: KeyChar(c);
  }

  /** The nine predictable keys differ, except for a base of full length that ends in 2 to 9: its last character is
      overwritten, and one attempt gives the base again. */
  lemma CandidateKeysDifferIff(baseKey: string, random4: string, random2: string)
    requires WellFormedKey(baseKey) && |random2| == 2
    ensures Distinct(KeyCandidates(baseKey, random4, random2, 9)) <==> !(|baseKey| == 10 && '2' <= baseKey[9] <= '9')
  {
    var keys := KeyCandidates(baseKey, random4, random2, MAX_KEY_RETRY);
    forall a | 1 <= a < MAX_KEY_RETRY
      ensures keys[a] == Take(baseKey, 9) + [Digit(a + 1)] && keys[a][|keys[a]| - 1] == Digit(a + 1)
    {
      OneDigit(a);
    }
    assert keys[0] == baseKey;
    if |baseKey| == MAX_KEY_LENGTH && '2' <= baseKey[9] <= '9' {
      var a := baseKey[9] as int - 49;
      assert baseKey == baseKey[..9] + [baseKey[9]];
      assert keys[a] == keys[0];
    } else {
      forall i, j | 0 <= i < j < |keys| ensures keys[i] != keys[j] {
        if i == 0 && |baseKey| == MAX_KEY_LENGTH {
          assert keys[j][9] == Digit(j + 1);
        }
      }
    }
  }

  /** So a workspace with fewer than nine project keys gets a predictable one for every other base. */
  lemma PredictableKey(baseKey: string, taken: set<string>, random4: string, random2: string)
    requires WellFormedKey(baseKey) && |random2| == 2 && |taken| < 9
    requires !(|baseKey| == 10 && '2' <= baseKey[9] <= '9')
    ensures var r := FirstFree(KeyCandidates(baseKey, random4, random2, MAX_KEY_RETRY + 1), taken);
            r.Some? && exists a :: 0 <= a < 9 &&
                                   r.value == CandidateProjectKey(baseKey, a, random4, random2)
  {
    CandidateKeysDifferIff(baseKey, random4, random2);
    var nine, all := KeyCandidates(baseKey, random4, random2, MAX_KEY_RETRY),
        KeyCandidates(baseKey, random4, random2, MAX_KEY_RETRY + 1);
    Pigeonhole(nine, taken);
    var k :| 0 <= k < |nine| && nine[k] !in taken;
    assert all[k] == nine[k];
    var i := TakenBefore(all, taken);
    assert i <= k;
    FirstFreeIs(all, taken, i);
  }
}
