/** Blanking the sensitive leaves of a configuration tree. */
module JsonBlank {
  import opened Prelude
  import opened SecretStore

  type Fields = map<string, Json>

  /** `Other` is a number, a boolean or null. */
  datatype Json = Str(s: string) | Obj(fields: Fields) | Arr(items: seq<Json>) | Other(text: string)

  // ----- Sensitive keys

  /** Simple case folding, as (?i) does it: two letters outside ASCII fold into it. */
  function Fold(c: char): char {
    if 'A' <= c <= 'Z' then c + ' '
    else if c == '\U{212A}' then 'k'
    else if c == '\U{17F}' then 's'
    else c
  }

  predicate EndsWith(k: string, word: string) {
    |k| >= |word| && forall i :: 0 <= i < |word| ==> Fold(k[|k| - |word| + i]) == word[i]
  }

  predicate SensitiveKey(k: string) {
    EndsWith(k, "password") || EndsWith(k, "secret") || EndsWith(k, "token") || EndsWith(k, "key")
    || EndsWith(k, "passphrase") || EndsWith(k, "credential")
  }

  const SECRET_WORDS: set<string> := {"password", "secret", "token", "key", "passphrase", "credential"}

  /** The letter, in either case; the Kelvin sign is a k and the long s an s. */
  predicate ReadsAs(c: char, letter: char) {
    || c == letter
    || ('A' <= c <= 'Z' && c as int + 32 == letter as int)
    || (c == '\U{212A}' && letter == 'k') || (c == '\U{17F}' && letter == 's')
  }

  /** The word, in any mix of cases. */
  predicate Spells(s: string, word: string) {
    |s| == |word| && forall i :: 0 <= i < |word| ==> ReadsAs(s[i], word[i])
  }

  predicate AllLower(word: string) {
    forall i :: 0 <= i < |word| ==> 'a' <= word[i] <= 'z'
  }

  lemma EndsWithIff(k: string, word: string)
    requires AllLower(word)
    ensures EndsWith(k, word) <==> |k| >= |word| && Spells(k[|k| - |word|..], word)
  {
    if |k| >= |word| {
      var tail := k[|k| - |word|..];
      forall i | 0 <= i < |word| ensures tail[i] == k[|k| - |word| + i] {}
      forall i | 0 <= i < |word| ensures ReadsAs(tail[i], word[i]) <==> Fold(tail[i]) == word[i] {
        FoldIsReading(tail[i], word[i]);
      }
    }
  }

  lemma FoldIsReading(c: char, letter: char)
    requires 'a' <= letter <= 'z'
    ensures ReadsAs(c, letter) <==> Fold(c) == letter
  {
  }

  /** A key is sensitive exactly if it is one of the six words behind some front, in any
      mix of cases. */
  lemma SensitiveIff(k: string)
    ensures SensitiveKey(k) <==>
              exists front, last, word :: k == front + last && word in SECRET_WORDS && Spells(last, word)
  {
    forall word | word in SECRET_WORDS
      ensures EndsWith(k, word) <==> exists front, last :: k == front + last && Spells(last, word)
    {
      EndsWithIff(k, word);
      if EndsWith(k, word) { assert k == k[..|k| - |word|] + k[|k| - |word|..]; }
      if front, last :| k == front + last && Spells(last, word) { assert k[|k| - |word|..] == last; }
    }
    if SensitiveKey(k) {
      var word :| word in SECRET_WORDS && EndsWith(k, word);
      var front, last :| k == front + last && Spells(last, word);
    }
  }

  // ----- The backstop

  /** A string directly under a key is judged by that key; anything else is
      recursed into. */
  function BlankedField(k: string, v: Json): Json
    decreases v, 1
  {
    if v.Str? then (if v.s != "" && SensitiveKey(k) then Str("") else v) else Blanked(v)
  }

  function Blanked(v: Json): Json
    decreases v, 0
  {
    match v
    case Obj(m) => Obj(map k | k in m :: BlankedField(k, m[k]))
    case Arr(items) => Arr(seq(|items|, i requires 0 <= i < |items| => Blanked(items[i])))
    case _ => v
  }

  function BlankedFields(m: Fields): Fields {
    Blanked(Obj(m)).fields
  }

  // ----- Where a node is

  datatype Step = Field(k: string) | Index(i: nat)

  function At(v: Json, path: seq<Step>): Option<Json> {
    if path == [] then Some(v)
    else match path[0]
      case Field(k) => if v.Obj? && k in v.fields then At(v.fields[k], path[1..]) else None
      case Index(i) => if v.Arr? && i < |v.items| then At(v.items[i], path[1..]) else None
  }

  predicate UnderSensitiveKey(path: seq<Step>) {
    path != [] && path[|path| - 1].Field? && SensitiveKey(path[|path| - 1].k)
  }

  /** What blanking owes each node: a string under a sensitive key becomes empty;
      key sets, array lengths and every other leaf stay. */
  predicate Owed(was: Json, now: Json, path: seq<Step>) {
    match was
    case Str(s) => now == Str(if UnderSensitiveKey(path) then "" else s)
    case Obj(m) => now.Obj? && now.fields.Keys == m.Keys
    case Arr(items) => now.Arr? && |now.items| == |items|
    case Other(_) => now == was
  }

  /** At every path of every tree, blanking does exactly what it owes. */
  lemma {:induction false} BlankedEverywhere(v: Json, path: seq<Step>)
    ensures At(Blanked(v), path).Some? <==> At(v, path).Some?
    ensures At(v, path).Some? ==> Owed(At(v, path).value, At(Blanked(v), path).value, path)
  {
    if path != [] {
      match path[0]
      case Field(k) =>
        if v.Obj? && k in v.fields {
          if !v.fields[k].Str? {
            BlankedEverywhere(v.fields[k], path[1..]);
            assert path[1..] != [] ==> path[1..][|path| - 2] == path[|path| - 1];
          } else if |path| == 1 {
            assert path[1..] == [];
          }
        }
      case Index(i) =>
        if v.Arr? && i < |v.items| {
          BlankedEverywhere(v.items[i], path[1..]);
          assert path[1..] != [] ==> path[1..][|path| - 2] == path[|path| - 1];
        }
    }
  }

  lemma {:induction false} BlankedTwice(v: Json)
    ensures Blanked(Blanked(v)) == Blanked(v)
  {
    match v
    case Obj(m) =>
      forall k | k in m ensures BlankedField(k, BlankedField(k, m[k])) == BlankedField(k, m[k]) {
        if !m[k].Str? { BlankedTwice(m[k]); }
      }
      assert Blanked(Blanked(v)).fields == Blanked(v).fields;
    case Arr(items) =>
      forall i | 0 <= i < |items| ensures Blanked(Blanked(items[i])) == Blanked(items[i]) { BlankedTwice(items[i]); }
      assert Blanked(Blanked(v)).items == Blanked(v).items;
    case _ =>
  }

  // ----- The allowlist

  function PathBlanked(m: Fields, segs: seq<string>): Fields
    decreases |segs|
  {
    if segs == [] || segs[0] !in m then m
    else if |segs| == 1 then (if m[segs[0]].Str? then m[segs[0] := Str("")] else m)
    else if m[segs[0]].Obj? then m[segs[0] := Obj(PathBlanked(m[segs[0]].fields, segs[1..]))]
    else m
  }

  /** Emptying one dotted path first makes no difference to the backstop, as long
      as the path ends in a key the backstop knows. */
  lemma {:induction false} BackstopSubsumesPath(m: Fields, segs: seq<string>)
    requires segs != [] && SensitiveKey(segs[|segs| - 1])
    ensures BlankedFields(PathBlanked(m, segs)) == BlankedFields(m)
    decreases |segs|
  {
    var k := segs[0];
    if k in m && |segs| > 1 && m[k].Obj? {
      BackstopSubsumesPath(m[k].fields, segs[1..]);
      var child := PathBlanked(m[k].fields, segs[1..]);
      assert Blanked(Obj(child)) == Blanked(m[k]);
    }
    var after := PathBlanked(m, segs);
    forall f | f in m ensures BlankedField(f, after[f]) == BlankedField(f, m[f]) {}
    assert BlankedFields(after) == BlankedFields(m);
  }

  function SplitDots(s: string): (segs: seq<string>)
    ensures segs != []
  {
    if s == "" then [""]
    else if s[0] == '.' then [""] + SplitDots(s[1..])
    else
      var rest := SplitDots(s[1..]);
      [[s[0]] + rest[0]] + rest[1..]
  }

  predicate DotFree(s: string) {
    forall i :: 0 <= i < |s| ==> s[i] != '.'
  }

  lemma SplitWord(word: string)
    requires DotFree(word)
    ensures SplitDots(word) == [word]
  {
    if word != "" {
      SplitWord(word[1..]);
      assert [word[0]] + word[1..] == word;
    }
  }

  lemma SplitPair(a: string, b: string)
    requires DotFree(a) && DotFree(b)
    ensures SplitDots(a + "." + b) == [a, b]
  {
    var s := a + "." + b;
    if a == "" {
      assert s[1..] == b;
      SplitWord(b);
    } else {
      assert s[1..] == a[1..] + "." + b;
      SplitPair(a[1..], b);
      assert [a[0]] + a[1..] == a;
    }
  }

  lemma SplitAs(field: string, a: string, b: string)
    requires field == a + "." + b && DotFree(a) && DotFree(b)
    ensures SplitDots(field) == [a, b]
  {
    SplitPair(a, b);
  }

  lemma AllowlistKeysAreSensitive()
    ensures SensitiveKey("password") && SensitiveKey("bot_token") && SensitiveKey("ap_password")
  {
    assert EndsWith("password", "password");
    assert EndsWith("bot_token", "token");
    assert EndsWith("ap_password", "password");
  }

  predicate SecondIsSensitive(field: string) {
    var segs := SplitDots(field); |segs| == 2 && SensitiveKey(segs[1])
  }

  lemma SecondSegment(field: string, a: string, b: string)
    requires field == a + "." + b && DotFree(a) && DotFree(b) && SensitiveKey(b)
    ensures SecondIsSensitive(field)
  {
    SplitAs(field, a, b);
  }

  lemma MqttIsSensitive(field: string)
    requires field == "mqtt.password"
    ensures SecondIsSensitive(field)
  {
    AllowlistKeysAreSensitive();
    SecondSegment(field, "mqtt", "password");
  }

  lemma TelegramIsSensitive(field: string)
    requires field == "telegram.bot_token"
    ensures SecondIsSensitive(field)
  {
    AllowlistKeysAreSensitive();
    SecondSegment(field, "telegram", "bot_token");
  }

  lemma WebIsSensitive(field: string)
    requires field == "web.password"
    ensures SecondIsSensitive(field)
  {
    AllowlistKeysAreSensitive();
    SecondSegment(field, "web", "password");
  }

  lemma WifiIsSensitive(field: string)
    requires field == "wifi.ap_password"
    ensures SecondIsSensitive(field)
  {
    AllowlistKeysAreSensitive();
    SecondSegment(field, "wifi", "ap_password");
  }

  /** Every field on the allowlist is an object and a key the backstop knows. */
  lemma AllowlistIsSensitive(field: string)
    requires field in SCALAR_SECRET_FIELDS
    ensures SecondIsSensitive(field)
  {
    if field == "mqtt.password" {
      MqttIsSensitive(field);
    } else if field == "telegram.bot_token" {
      TelegramIsSensitive(field);
    } else if field == "web.password" {
      WebIsSensitive(field);
    } else {
      WifiIsSensitive(field);
    }
  }
}
