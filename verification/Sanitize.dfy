/** Redacting a payload before it is logged. The payload is any object graph, shared and cyclic ones included. */
module Sanitize {
  type Id = nat

  datatype Primitive = Str(s: string) | Num(r: real) | Big(i: int) | Bool(b: bool)

  datatype Value = Null | Undefined | Prim(p: Primitive) | Ref(id: Id)

  datatype Kind = Arr | Obj

  /** An array's fields are its items, under their indices. */
  datatype Field = Field(key: string, value: Value)

  datatype Node = Node(kind: Kind, fields: seq<Field>)

  type Heap = map<Id, Node>

  /** What comes out is a tree. */
  datatype Out = NullOut | UndefinedOut | PrimOut(p: Primitive) | Box(kind: Kind, entries: seq<Entry>)

  datatype Entry = Entry(key: string, value: Out)

  /** References lead to objects. */
  ghost predicate Closed(h: Heap) {
    forall id, i | id in h && 0 <= i < |h[id].fields| && h[id].fields[i].value.Ref? :: h[id].fields[i].value.id in h
  }

  predicate In(v: Value, h: Heap) {
    v.Ref? ==> v.id in h
  }

  // ─── Sensitive keys ────────────────────────────────────

  const SENSITIVE_KEYS: set<string> := {
    "password", "newpassword", "oldpassword", "currentpassword", "confirmpassword", "token", "accesstoken",
    "refreshtoken", "idtoken", "apikey", "otp", "secret", "clientsecret", "authorization", "cookie", "setcookie",
    "creditcard", "cvv", "ssn"
  }

  function LowerCase(c: char): char {
    if 'A' <= c <= 'Z' then (c as int + 32) as char else c
  }

  function NormalizeKey(key: string): string {
    if key == "" then ""
    else (if key[0] == '_' || key[0] == '-' then "" else [LowerCase(key[0])]) + NormalizeKey(key[1..])
  }

  predicate IsSensitiveKey(key: string) {
    NormalizeKey(key) in SENSITIVE_KEYS
  }

  lemma {:induction false} NormalizeConcat(a: string, b: string)
    ensures NormalizeKey(a + b) == NormalizeKey(a) + NormalizeKey(b)
  {
    if a == "" {
      assert a + b == b;
    } else {
      assert (a + b)[1..] == a[1..] + b;
      NormalizeConcat(a[1..], b);
    }
  }

  /** Case and separators make no difference: a key is as sensitive with an underscore or hyphen anywhere, and with any
      letter in capitals, as without. */
  lemma SpellingDoesNotMatter(a: string, b: string, sep: char, c: char)
    requires sep == '_' || sep == '-'
    ensures IsSensitiveKey(a + [sep] + b) == IsSensitiveKey(a + b)
    ensures IsSensitiveKey(a + [c] + b) == IsSensitiveKey(a + [LowerCase(c)] + b)
  {
    NormalizeConcat(a, b);
    NormalizeMiddle(a, sep, b);
    NormalizeMiddle(a, c, b);
    NormalizeMiddle(a, LowerCase(c), b);
    assert NormalizeKey([sep]) == "" by { assert [sep][1..] == ""; }
    assert NormalizeKey([c]) == NormalizeKey([LowerCase(c)]) by { assert [c][1..] == "" && [LowerCase(c)][1..] == ""; }
    assert NormalizeKey(a) + "" == NormalizeKey(a);
  }

  lemma NormalizeMiddle(a: string, c: char, b: string)
    ensures NormalizeKey(a + [c] + b) == NormalizeKey(a) + NormalizeKey([c]) + NormalizeKey(b)
  {
    NormalizeConcat(a + [c], b);
    NormalizeConcat(a, [c]);
  }

  /** The key is the word, with capitals in any places and underscores and hyphens anywhere. */
  predicate Spells(key: string, word: string) {
    if key == "" then word == ""
    else if key[0] == '_' || key[0] == '-' then Spells(key[1..], word)
    else word != "" && 'a' <= word[0] <= 'z' && (key[0] == word[0] || key[0] as int == word[0] as int - 32) &&
         Spells(key[1..], word[1..])
  }

  /** The words that name secrets. */
  const SECRET_WORDS: seq<string> :=
    ["password", "newpassword", "oldpassword", "currentpassword", "confirmpassword", "token", "accesstoken",
     "refreshtoken", "idtoken", "apikey", "otp", "secret", "clientsecret", "authorization", "cookie", "setcookie",
     "creditcard", "cvv", "ssn"]

  ghost predicate NamesSecret(key: string) {
    exists word :: word in SECRET_WORDS && Spells(key, word)
  }

  /** What normalising makes of a key is the one word of small letters that it spells. */
  lemma {:induction false} SpellsIff(key: string, word: string)
    requires forall i | 0 <= i < |word| :: 'a' <= word[i] <= 'z'
    ensures Spells(key, word) <==> NormalizeKey(key) == word
  {
    if key != "" {
      if key[0] == '_' || key[0] == '-' {
        SpellsIff(key[1..], word);
        assert "" + NormalizeKey(key[1..]) == NormalizeKey(key[1..]);
      } else {
        var normalized := NormalizeKey(key);
        assert normalized == [LowerCase(key[0])] + NormalizeKey(key[1..]);
        assert normalized[0] == LowerCase(key[0]) && normalized[1..] == NormalizeKey(key[1..]);
        if word != "" {
          SpellsIff(key[1..], word[1..]);
          assert word == [word[0]] + word[1..];
        }
      }
    }
  }

  /** Sensitive are exactly the spellings of the words listed, written out here. */
  lemma SensitiveIff(key: string)
    ensures IsSensitiveKey(key) <==> NamesSecret(key)
  {
    forall word | word in SECRET_WORDS ensures Spells(key, word) <==> NormalizeKey(key) == word {
      var k :| 0 <= k < |SECRET_WORDS| && SECRET_WORDS[k] == word;
      SmallLetters(k);
      SpellsIff(key, word);
    }
    SameWords(NormalizeKey(key));
  }

  lemma SmallLetters(k: nat)
    requires k < |SECRET_WORDS|
    ensures forall i | 0 <= i < |SECRET_WORDS[k]| :: 'a' <= SECRET_WORDS[k][i] <= 'z'
  {
  }

  lemma SameWords(word: string)
    ensures word in SENSITIVE_KEYS <==>
            word in SECRET_WORDS
  {
  }

  predicate Hidden(kind: Kind, key: string) {
    kind == Obj && IsSensitiveKey(key)
  }

  // ─── The walk ──────────────────────────────────────────

  const MASK: Out := PrimOut(Str("***"))
  const CIRCULAR: Out := PrimOut(Str("[Circular]"))
  const TOO_DEEP: Out := PrimOut(Str("[MaxDepth]"))
  const MAX_DEPTH: nat := 10
  const MAX_BYTES: nat := 32_000

  function Room(depth: nat): nat {
    if depth > MAX_DEPTH then 0 else MAX_DEPTH + 1 - depth
  }

  /** The redacted value and the objects seen by then. */
  function Walk(h: Heap, v: Value, depth: nat, seen: set<Id>): (r: (Out, set<Id>))
    requires Closed(h) && In(v, h)
    decreases Room(depth), 0
  {
    if v.Null? then (NullOut, seen)
    else if v.Undefined? then (UndefinedOut, seen)
    else if depth > MAX_DEPTH then (TOO_DEEP, seen)
    else if v.Prim? then (PrimOut(v.p), seen)
    else if v.id in seen then (CIRCULAR, seen)
    else
      var node := h[v.id];
      var (entries, after) := WalkFields(h, node, |node.fields|, depth + 1, seen + {v.id});
      (Box(node.kind, entries), after)
  }

  /** The first `n` fields of an object, in order, each after what the ones before it have seen. */
  function WalkFields(h: Heap, node: Node, n: nat, depth: nat, seen: set<Id>): (r: (seq<Entry>, set<Id>))
    requires Closed(h) && n <= |node.fields| && forall i | 0 <= i < n :: In(node.fields[i].value, h)
    ensures |r.0| == n
    decreases Room(depth), 1 + n
  {
    if n == 0 then ([], seen)
    else
      var (entries, mid) := WalkFields(h, node, n - 1, depth, seen);
      var field := node.fields[n - 1];
      if Hidden(node.kind, field.key) then (entries + [Entry(field.key, MASK)], mid)
      else
        var (out, after) := Walk(h, field.value, depth, mid);
        (entries + [Entry(field.key, out)], after)
  }

  /** JSON.stringify: a text of some length, undefined, or an exception (a BigInt, say). */
  datatype Serial = Text(length: nat) | Nothing | Throws

  function EnforceSizeLimit(value: Out, stringify: Out -> Serial): Out {
    var json := stringify(value);
    if json.Throws? then Box(Obj,
                             [Entry("_truncated", PrimOut(Bool(true))),
                              Entry("reason", PrimOut(Str("serialization-failed")))])
    else if json.Nothing? || json.length <= MAX_BYTES then value
    else Box(Obj, [Entry("_truncated", PrimOut(Bool(true))), Entry("size", PrimOut(Num(json.length as real)))])
  }

  function SanitizePayload(h: Heap, v: Value, stringify: Out -> Serial): Out
    requires Closed(h) && In(v, h)
  {
    EnforceSizeLimit(Walk(h, v, 0, {}).0, stringify)
  }

  /** The walk as the source runs it, with one shared set of seen objects. */
  class Walker {
    const heap: Heap
    var seen: set<Id>

    constructor (heap: Heap)
      ensures this.heap == heap && seen == {}
    {
      this.heap := heap;
      seen := {};
    }

    method WalkValue(v: Value, depth: nat) returns (out: Out)
      requires Closed(heap) && In(v, heap)
      modifies this
      ensures (out, seen) == Walk(heap, v, depth, old(seen))
      decreases Room(depth)
    {
      hide IsSensitiveKey;
      if v.Null? {
        return NullOut;
      }
      if v.Undefined? {
        return UndefinedOut;
      }
      if depth > MAX_DEPTH {
        return TOO_DEEP;
      }
      if v.Prim? {
        return PrimOut(v.p);
      }
      if v.id in seen {
        return CIRCULAR;
      }
      seen := seen + {v.id};
      ghost var start := seen;
      var node := heap[v.id];
      var entries: seq<Entry> := [];
      var i := 0;
      if node.kind == Arr {
        while i < |node.fields|
          invariant 0 <= i <= |node.fields|
          invariant (entries, seen) == WalkFields(heap, node, i, depth + 1, start)
        {
          var item := WalkValue(node.fields[i].value, depth + 1);
          entries := entries + [Entry(node.fields[i].key, item)];
          i := i + 1;
        }
        return Box(Arr, entries);
      }
      while i < |node.fields|
        invariant 0 <= i <= |node.fields|
        invariant (entries, seen) == WalkFields(heap, node, i, depth + 1, start)
      {
        var field := node.fields[i];
        if IsSensitiveKey(field.key) {
          entries := entries + [Entry(field.key, MASK)];
        } else {
          var out := WalkValue(field.value, depth + 1);
          entries := entries + [Entry(field.key, out)];
        }
        i := i + 1;
      }
      return Box(Obj, entries);
    }
  }

  method SanitizeValue(h: Heap, v: Value, stringify: Out -> Serial) returns (r: Out)
    requires Closed(h) && In(v, h)
    ensures r == SanitizePayload(h, v, stringify)
    ensures Masked(r) && Height(r) <= 11
  {
    SanitizedIsMasked(h, v, stringify);
    var walker := new Walker(h);
    var result := walker.WalkValue(v, 0);
    r := EnforceSizeLimit(result, stringify);
  }

  // ─── Nothing sensitive gets out ────────────────────────

  /** Every key that names a secret, at every depth, maps to three asterisks. */
  ghost predicate Masked(out: Out) {
    out.Box? ==> forall i | 0 <= i < |out.entries| ::
      && (out.kind == Obj && NamesSecret(out.entries[i].key) ==> out.entries[i].value == PrimOut(Str("***")))
      && Masked(out.entries[i].value)
  }

  /** How deep the containers nest. */
  function Height(out: Out): nat {
    if out.Box? then 1 + Highest(out.entries) else 0
  }

  function Highest(entries: seq<Entry>): (n: nat)
    ensures forall i | 0 <= i < |entries| :: Height(entries[i].value) <= n
  {
    if entries == [] then 0
    else
      var last := entries[|entries| - 1];
      var rest := Highest(entries[..|entries| - 1]);
      assert forall i | 0 <= i < |entries| - 1 :: entries[i] == entries[..|entries| - 1][i];
      if Height(last.value) > rest then Height(last.value) else rest
  }

  lemma WalkIsMasked(h: Heap, v: Value, depth: nat, seen: set<Id>)
    requires Closed(h) && In(v, h)
    ensures Masked(Walk(h, v, depth, seen).0) && Height(Walk(h, v, depth, seen).0) <= Room(depth)
    decreases Room(depth), 0
  {
    if v.Ref? && depth <= MAX_DEPTH && v.id !in seen {
      FieldsAreMasked(h, h[v.id], |h[v.id].fields|, depth + 1, seen + {v.id});
    }
  }

  lemma {:induction false} FieldsAreMasked(h: Heap, node: Node, n: nat, depth: nat, seen: set<Id>)
    requires Closed(h) && n <= |node.fields| && forall i | 0 <= i < n :: In(node.fields[i].value, h)
    ensures Masked(Box(node.kind, WalkFields(h, node, n, depth, seen).0)) &&
            Highest(WalkFields(h, node, n, depth, seen).0) <= Room(depth)
    decreases Room(depth), 1 + n
  {
    if n > 0 {
      var (entries, mid) := WalkFields(h, node, n - 1, depth, seen);
      FieldsAreMasked(h, node, n - 1, depth, seen);
      WalkIsMasked(h, node.fields[n - 1].value, depth, mid);
      var all := WalkFields(h, node, n, depth, seen).0;
      assert all[..n - 1] == entries;
      forall i | 0 <= i < n
        ensures node.kind == Obj && NamesSecret(all[i].key) ==> all[i].value == PrimOut(Str("***"))
        ensures Masked(all[i].value)
      {
        SensitiveIff(all[i].key);
        assert i < n - 1 ==> all[i] == Box(node.kind, entries).entries[i];
      }
    }
  }

  /** For any graph, of any depth and with any cycles: in what is logged every sensitive key maps to the mask, and
      containers nest at most eleven deep. */
  lemma SanitizedIsMasked(h: Heap, v: Value, stringify: Out -> Serial)
    requires Closed(h) && In(v, h)
    ensures Masked(SanitizePayload(h, v, stringify)) && Height(SanitizePayload(h, v, stringify)) <= 11
  {
    WalkIsMasked(h, v, 0, {});
    MarkersAreMasked(Walk(h, v, 0, {}).0, stringify);
  }

  lemma MarkersAreMasked(value: Out, stringify: Out -> Serial)
    requires Masked(value) && Height(value) <= MAX_DEPTH + 1
    ensures Masked(EnforceSizeLimit(value, stringify)) && Height(EnforceSizeLimit(value, stringify)) <= MAX_DEPTH + 1
  {
    var result := EnforceSizeLimit(value, stringify);
    NotSensitive();
    SensitiveIff("_truncated");
    SensitiveIff("size");
    SensitiveIff("reason");
    hide IsSensitiveKey, NamesSecret;
    if result != value {
      FlatHeight(result);
    }
  }

  lemma SensitiveKeysLookLike(key: string)
    requires key in SENSITIVE_KEYS
    ensures |key| != 4 && (|key| == 6 ==> key[0] != 'r') && (|key| == 9 ==> key[0] == 's')
  {
  }

  lemma PlainNotSensitive(key: string)
    requires forall i | 0 <= i < |key| :: 'a' <= key[i] <= 'z'
    requires |key| == 4 || (|key| == 6 && key[0] == 'r') || (|key| == 9 && key[0] != 's')
    ensures !IsSensitiveKey(key)
  {
    NormalizePlain(key);
    if key in SENSITIVE_KEYS {
      SensitiveKeysLookLike(key);
      assert false;
    }
  }

  lemma NotSensitive()
    ensures !IsSensitiveKey("_truncated") && !IsSensitiveKey("size") && !IsSensitiveKey("reason")
  {
    PlainNotSensitive("size");
    PlainNotSensitive("reason");
    PlainNotSensitive("truncated");
    assert NormalizeKey("_truncated") == NormalizeKey("truncated") by {
      assert "_truncated" == "_" + "truncated" && "_truncated"[1..] == "truncated";
      assert "" + NormalizeKey("truncated") == NormalizeKey("truncated");
    }
  }

  lemma {:induction false} NormalizePlain(key: string)
    requires forall i | 0 <= i < |key| :: 'a' <= key[i] <= 'z'
    ensures NormalizeKey(key) == key
  {
    if key != "" {
      NormalizePlain(key[1..]);
      assert key == [key[0]] + key[1..];
    }
  }

  lemma FlatHeight(out: Out)
    requires out.Box? && forall i | 0 <= i < |out.entries| :: !out.entries[i].value.Box?
    ensures Height(out) <= 1
  {
    FlatHighest(out.entries);
  }

  lemma {:induction false} FlatHighest(entries: seq<Entry>)
    requires forall i | 0 <= i < |entries| :: !entries[i].value.Box?
    ensures Highest(entries) == 0
  {
    if entries != [] { FlatHighest(entries[..|entries| - 1]); }
  }

  lemma SpellsRefresh()
    ensures Spells("Refresh", "refresh")
  {
    SpellsItself("efresh");
    assert "Refresh"[1..] == "efresh" && "refresh"[1..] == "efresh";
  }

  lemma SpellsToken()
    ensures Spells("_Token", "token")
  {
    SpellsItself("oken");
    assert "_Token"[1..] == "Token" && "Token"[1..] == "oken" && "token"[1..] == "oken";
  }

  lemma SpellsPassword()
    ensures NamesSecret("password")
  {
    SpellsItself("password");
    assert SECRET_WORDS[0] == "password";
  }

  lemma SpellsRefreshToken()
    ensures NamesSecret("Refresh_Token")
  {
    hide Spells;
    SpellsRefresh();
    SpellsToken();
    SpellsConcat("Refresh", "_Token", "refresh", "token");
    assert "Refresh_Token" == "Refresh" + "_Token" && "refreshtoken" == "refresh" + "token";
    assert SECRET_WORDS[7] == "refreshtoken";
  }

  lemma {:induction false} SpellsItself(word: string)
    requires forall i | 0 <= i < |word| :: 'a' <= word[i] <= 'z'
    ensures Spells(word, word)
  {
    if word != "" { SpellsItself(word[1..]); }
  }

  lemma {:induction false} SpellsConcat(a: string, b: string, x: string, y: string)
    requires Spells(a, x) && Spells(b, y)
    ensures Spells(a + b, x + y)
  {
    if a == "" {
      assert a + b == b && x + y == y;
    } else {
      assert (a + b)[1..] == a[1..] + b;
      if a[0] == '_' || a[0] == '-' {
        SpellsConcat(a[1..], b, x, y);
      } else {
        assert (x + y)[1..] == x[1..] + y;
        SpellsConcat(a[1..], b, x[1..], y);
      }
    }
  }

  lemma PlainX()
    ensures !NamesSecret("X")
  {
    SensitiveIff("X");
    assert NormalizeKey("X") == "x" by { assert "X"[1..] == ""; assert NormalizeKey("") == ""; }
    assert forall word | word in SENSITIVE_KEYS :: |word| > 1;
  }

  // ─── Non-interference ──────────────────────────────────

  predicate Alike(v: Value, w: Value, names: map<Id, Id>) {
    if v.Ref? then w.Ref? && v.id in names && names[v.id] == w.id else v == w
  }

  /** The two objects are of one kind and have the same keys, and agree on the fields that are not sensitive. */
  ghost predicate NodesAlike(a: Node, b: Node, names: map<Id, Id>) {
    a.kind == b.kind && |a.fields| == |b.fields| &&
    forall i | 0 <= i < |a.fields| ::
      a.fields[i].key == b.fields[i].key &&
          ((a.kind == Obj && NamesSecret(a.fields[i].key)) || Alike(a.fields[i].value, b.fields[i].value, names))
  }

  /** A renaming under which the graphs differ only below sensitive keys. What hangs there need not be in it. */
  ghost predicate GraphsAlike(h: Heap, g: Heap, names: map<Id, Id>) {
    && (forall a, b | a in names && b in names && names[a] == names[b] :: a == b)
    && (forall a | a in names :: a in h && names[a] in g && NodesAlike(h[a], g[names[a]], names))
  }

  ghost predicate SeenAlike(seen: set<Id>, also: set<Id>, names: map<Id, Id>) {
    forall a | a in names :: a in seen <==> names[a] in also
  }

  lemma WalkAlike(h: Heap, g: Heap, names: map<Id, Id>, v: Value, w: Value, depth: nat, seen: set<Id>, also: set<Id>)
    requires Closed(h) && Closed(g) && In(v, h) && In(w, g) && GraphsAlike(h, g, names) && Alike(v, w, names) &&
             SeenAlike(seen, also, names)
    ensures var (x, y) := (Walk(h, v, depth, seen), Walk(g, w, depth, also)); x.0 == y.0 && SeenAlike(x.1, y.1, names)
    decreases Room(depth), 0
  {
    hide NamesSecret, IsSensitiveKey, WalkFields;
    if v.Ref? && depth <= MAX_DEPTH && v.id !in seen {
      assert NodesAlike(h[v.id], g[w.id], names);
      FieldsAlike(h, g, names, h[v.id], g[w.id], |h[v.id].fields|, depth + 1, seen + {v.id}, also + {w.id});
    }
  }

  lemma {:induction false} FieldsAlike(h: Heap, g: Heap, names: map<Id, Id>, a: Node, b: Node, n: nat, depth: nat,
                                       seen: set<Id>, also: set<Id>)
    requires Closed(h) && Closed(g) && GraphsAlike(h, g, names) && SeenAlike(seen, also, names) &&
             NodesAlike(a, b, names)
    requires n <= |a.fields| && (forall i | 0 <= i < n :: In(a.fields[i].value, h)) && forall i | 0 <= i < n ::
             In(b.fields[i].value, g)
    ensures var (x, y) := (WalkFields(h, a, n, depth, seen),
                           WalkFields(g, b, n, depth, also)); x.0 == y.0 && SeenAlike(x.1, y.1, names)
    decreases Room(depth), 1 + n
  {
    if n > 0 {
      SensitiveIff(a.fields[n - 1].key);
      hide NamesSecret, IsSensitiveKey, Walk;
      FieldsAlike(h, g, names, a, b, n - 1, depth, seen, also);
      var (x, y) := (WalkFields(h, a, n - 1, depth, seen), WalkFields(g, b, n - 1, depth, also));
      if !Hidden(a.kind, a.fields[n - 1].key) {
        WalkAlike(h, g, names, a.fields[n - 1].value, b.fields[n - 1].value, depth, x.1, y.1);
      }
    }
  }

  /** Two payloads that differ only below sensitive keys are logged identically, size marker included: the log holds
      nothing that depends on what is below them. */
  lemma NonInterference(h: Heap, g: Heap, names: map<Id, Id>, v: Value, w: Value, stringify: Out -> Serial)
    requires Closed(h) && Closed(g) && In(v, h) && In(w, g) && GraphsAlike(h, g, names) && Alike(v, w, names)
    ensures SanitizePayload(h, v, stringify) == SanitizePayload(g, w, stringify)
  {
    WalkAlike(h, g, names, v, w, 0, {}, {});
  }

  // ─── What is kept ──────────────────────────────────────

  /** The output shows the value: primitives as they are, objects field by field under the same keys in the same order,
      down to the depth limit; a back reference only for an object that is shown elsewhere. */
  ghost predicate Shows(h: Heap, v: Value, depth: nat, out: Out, shown: set<Id>)
    requires Closed(h) && In(v, h)
    decreases Room(depth), 0
  {
    if v.Null? then out == NullOut
    else if v.Undefined? then out == UndefinedOut
    else if depth > 10 then out == PrimOut(Str("[MaxDepth]"))
    else if v.Prim? then out == PrimOut(v.p)
    else if out == PrimOut(Str("[Circular]")) then v.id in shown
    else out.Box? && out.kind == h[v.id].kind && |out.entries| == |h[v.id].fields| && v.id in shown &&
         ShowsFields(h, h[v.id], |out.entries|, depth + 1, out.entries, shown)
  }

  ghost predicate ShowsFields(h: Heap, node: Node, n: nat, depth: nat, entries: seq<Entry>, shown: set<Id>)
    requires Closed(h) && n <= |node.fields| && n <= |entries| && forall i | 0 <= i < n :: In(node.fields[i].value, h)
    decreases Room(depth), 1
  {
    forall i | 0 <= i < n ::
      entries[i].key == node.fields[i].key &&
      if node.kind == Obj && NamesSecret(node.fields[i].key) then entries[i].value == PrimOut(Str("***"))
      else Shows(h, node.fields[i].value, depth, entries[i].value, shown)
  }

  lemma ShowsMore(h: Heap, v: Value, depth: nat, out: Out, shown: set<Id>, more: set<Id>)
    requires Closed(h) && In(v, h) && Shows(h, v, depth, out, shown) && shown <= more
    ensures Shows(h, v, depth, out, more)
    decreases Room(depth)
  {
    if v.Ref? && depth <= MAX_DEPTH && out.Box? {
      var node := h[v.id];
      forall i | 0 <= i < |out.entries| && !(node.kind == Obj && NamesSecret(node.fields[i].key))
        ensures Shows(h, node.fields[i].value, depth + 1, out.entries[i].value, more)
      {
        ShowsMore(h, node.fields[i].value, depth + 1, out.entries[i].value, shown, more);
      }
    }
  }

  /** The number of containers in the output. */
  function Boxes(out: Out): nat {
    if out.Box? then 1 + BoxesIn(out.entries) else 0
  }

  function BoxesIn(entries: seq<Entry>): nat {
    if entries == [] then 0
    else BoxesIn(entries[..|entries| - 1]) + Boxes(entries[|entries| - 1].value)
  }

  lemma WalkShows(h: Heap, v: Value, depth: nat, seen: set<Id>)
    requires Closed(h) && In(v, h)
    ensures var (out, after) := Walk(h, v, depth, seen);
            seen <= after <= seen + h.Keys && Shows(h, v, depth, out, after) && |after| == |seen| + Boxes(out)
    decreases Room(depth), 0
  {
    if v.Ref? && depth <= MAX_DEPTH && v.id !in seen {
      FieldsShow(h, h[v.id], |h[v.id].fields|, depth + 1, seen + {v.id});
    }
  }

  lemma FieldStep(h: Heap, node: Node, n: nat, depth: nat, seen: set<Id>)
    requires Closed(h) && 0 < n <= |node.fields| && forall i | 0 <= i < n :: In(node.fields[i].value, h)
    ensures var (entries, mid) := WalkFields(h, node, n - 1, depth, seen);
            var (all, after) := WalkFields(h, node, n, depth, seen);
            var field := node.fields[n - 1];
            && all == entries + [all[n - 1]] && all[n - 1].key == field.key
            && if Hidden(node.kind, field.key) then all[n - 1].value == MASK && after == mid
               else (all[n - 1].value, after) == Walk(h, field.value, depth, mid)
  {
    hide Walk, Hidden;
  }

  lemma {:induction false} FieldsShow(h: Heap, node: Node, n: nat, depth: nat, seen: set<Id>)
    requires Closed(h) && n <= |node.fields| && forall i | 0 <= i < n :: In(node.fields[i].value, h)
    ensures var (entries, after) := WalkFields(h, node, n, depth, seen);
            seen <= after <= seen + h.Keys && ShowsFields(h, node, n, depth, entries, after) &&
                |after| == |seen| + BoxesIn(entries)
    decreases Room(depth), 1 + n
  {
    if n > 0 {
      SensitiveIff(node.fields[n - 1].key);
      hide Walk, WalkFields, Shows, ShowsFields, NamesSecret, IsSensitiveKey;
      FieldStep(h, node, n, depth, seen);
      var (entries, mid) := WalkFields(h, node, n - 1, depth, seen);
      var (all, after) := WalkFields(h, node, n, depth, seen);
      var field := node.fields[n - 1];
      FieldsShow(h, node, n - 1, depth, seen);
      WalkShows(h, field.value, depth, mid);
      ShowsOneMore(h, node, n, depth, entries, all, mid, after);
      BoxesSnoc(entries, all[n - 1]);
    }
  }

  lemma BoxesSnoc(entries: seq<Entry>, last: Entry)
    ensures BoxesIn(entries + [last]) == BoxesIn(entries) + Boxes(last.value)
  {
    assert (entries + [last])[..|entries|] == entries;
  }

  lemma ShowsOneMore(h: Heap, node: Node, n: nat, depth: nat, entries: seq<Entry>, all: seq<Entry>, shown: set<Id>,
                     more: set<Id>)
    requires Closed(h) && 0 < n <= |node.fields| && |entries| == n - 1 && |all| == n && forall i | 0 <= i < n ::
             In(node.fields[i].value, h)
    requires all == entries + [all[n - 1]] && shown <= more && ShowsFields(h, node, n - 1, depth, entries, shown)
    requires all[n - 1].key == node.fields[n - 1].key
    requires if node.kind == Obj && NamesSecret(all[n - 1].key) then all[n - 1].value == PrimOut(Str("***"))
             else Shows(h, node.fields[n - 1].value, depth, all[n - 1].value, more)
    ensures ShowsFields(h, node, n, depth, all, more)
  {
    forall i | 0 <= i < n - 1 && !(node.kind == Obj && NamesSecret(node.fields[i].key))
      ensures Shows(h, node.fields[i].value, depth, all[i].value, more)
    {
      assert all[i] == entries[i];
      ShowsMore(h, node.fields[i].value, depth, entries[i].value, shown, more);
    }
  }

  lemma TopWalk(h: Heap)
    requires Closed(h) && 0 in h
    ensures Walk(h, Ref(0), 0, {}).0 == Box(h[0].kind, WalkFields(h, h[0], |h[0].fields|, 1, {0}).0)
  {
    assert {} + {0} == {0};
    hide WalkFields;
  }

  lemma TwoMaskedOneShown(h: Heap, node: Node, p: Field, r: Field, c: Field)
    requires Closed(h) && node.kind == Obj && node.fields == [p, r, c] && c.value.Prim?
    requires NamesSecret(p.key) && NamesSecret(r.key) && !NamesSecret(c.key) && !p.value.Ref? && !r.value.Ref?
    ensures WalkFields(h, node, 3, 1, {0}).0 ==
            [Entry(p.key, PrimOut(Str("***"))), Entry(r.key, PrimOut(Str("***"))), Entry(c.key, PrimOut(c.value.p))]
  {
    SensitiveIff(p.key);
    SensitiveIff(r.key);
    SensitiveIff(c.key);
    assert forall seen: set<Id> :: Walk(h, c.value, 1, seen).0 == PrimOut(c.value.p);
    assert WalkFields(h, node, 0, 1, {0}) == ([], {0});
    hide IsSensitiveKey, NamesSecret, Walk, WalkFields;
    FieldStep(h, node, 1, 1, {0});
    FieldStep(h, node, 2, 1, {0});
    FieldStep(h, node, 3, 1, {0});
  }

  /** A payload of two fields that name secrets and one that does not, logged. */
  lemma TwoOfThree(p: Field, r: Field, c: Field, stringify: Out -> Serial)
    requires NamesSecret(p.key) && NamesSecret(r.key) && !NamesSecret(c.key)
    requires !p.value.Ref? && !r.value.Ref? && c.value.Prim? && forall out :: stringify(out).Nothing?
    ensures var h := map[0 := Node(Obj, [p, r, c])];
            && Closed(h)
            && SanitizePayload(h, Ref(0), stringify) ==
               Box(Obj, [Entry(p.key, PrimOut(Str("***"))), Entry(r.key, PrimOut(Str("***"))),
                         Entry(c.key, PrimOut(c.value.p))])
  {
    hide IsSensitiveKey, NamesSecret, Walk, WalkFields;
    var h: Heap := map[0 := Node(Obj, [p, r, c])];
    TopWalk(h);
    TwoMaskedOneShown(h, h[0], p, r, c);
  }

  /** For instance one with the fields password, Refresh_Token and X. */
  lemma SecretsAreMasked(p: Value, r: Value, x: Primitive, stringify: Out -> Serial)
    requires !p.Ref? && !r.Ref? && forall out :: stringify(out).Nothing?
    ensures var h := map[0 := Node(Obj, [Field("password", p), Field("Refresh_Token", r), Field("X", Prim(x))])];
            && Closed(h)
            && SanitizePayload(h, Ref(0), stringify) ==
               Box(Obj, [Entry("password", PrimOut(Str("***"))), Entry("Refresh_Token", PrimOut(Str("***"))),
                         Entry("X", PrimOut(x))])
  {
    SpellsPassword();
    SpellsRefreshToken();
    PlainX();
    hide NamesSecret, SanitizePayload, Closed;
    TwoOfThree(Field("password", p), Field("Refresh_Token", r), Field("X", Prim(x)), stringify);
  }

  /** Nothing else is changed: what is logged shows the payload, unless the size marker stands for all of it. Each
      object is written out once at most, so there are no more containers than objects, however the graph is tangled. */
  lemma SanitizedShows(h: Heap, v: Value, stringify: Out -> Serial)
    requires Closed(h) && In(v, h)
    ensures var (out, shown) := Walk(h, v, 0, {});
            && Shows(h, v, 0, out, shown) && shown <= h.Keys && Boxes(out) == |shown| <= |h|
            && SanitizePayload(h, v, stringify) ==
               match stringify(out)
               case Nothing => out
               case Text(length) =>
                 if length <= 32_000 then out
                 else Box(Obj, [Entry("_truncated", PrimOut(Bool(true))), Entry("size", PrimOut(Num(length as real)))])
               case Throws =>
                 Box(Obj, [Entry("_truncated", PrimOut(Bool(true))),
                           Entry("reason", PrimOut(Str("serialization-failed")))])
  {
    WalkShows(h, v, 0, {});
    var (out, shown) := Walk(h, v, 0, {});
    SmallerSet(shown, h.Keys);
    assert |h.Keys| == |h|;
  }

  lemma SmallerSet(a: set<Id>, b: set<Id>)
    requires a <= b
    ensures |a| <= |b|
  {
    assert b == a + (b - a);
  }
}
