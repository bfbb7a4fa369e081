/**
 Prompt templates: eight textual replacements, one after the other, against the
 simultaneous substitution that a template's author has in mind.
 */
module Prompt {

  const PLACEHOLDERS: seq<string> := [
    "agent_name", "agent_version", "objective", "responsibilities", "input_manifest", "constraints",
    "allowed_tools", "quality_gates"]

  type Values = map<string, string>

  function ValueOf(values: Values, key: string): string {
    if key in values then values[key] else ""
  }

  function Pattern(key: string): string {
    "{" + key + "}"
  }

  /** `text.replace(pattern, value)`: occurrences from left to right, the inserted text not rescanned. */
  function Replace(text: string, pattern: string, value: string): string
    requires pattern != ""
  {
    if text == "" then ""
    else if pattern <= text then value + Replace(text[|pattern|..], pattern, value)
    else [text[0]] + Replace(text[1..], pattern, value)
  }

  /** The replacements for a list of keys, in its order. */
  function Sequential(text: string, keys: seq<string>, values: Values): string
    decreases |keys|
  {
    if keys == [] then text
    else Sequential(Replace(text, Pattern(keys[0]), ValueOf(values, keys[0])), keys[1..], values)
  }

  method RenderPrompt(template: string, values: Values) returns (rendered: string)
    ensures rendered == Sequential(template, PLACEHOLDERS, values)
  {
    rendered := template;
    for i := 0 to |PLACEHOLDERS|
      invariant Sequential(template, PLACEHOLDERS, values) == Sequential(rendered, PLACEHOLDERS[i..], values)
    {
      var key := PLACEHOLDERS[i];
      assert PLACEHOLDERS[i..][0] == key && PLACEHOLDERS[i..][1..] == PLACEHOLDERS[i + 1..];
      rendered := Replace(rendered, Pattern(key), ValueOf(values, key));
    }
  }

  // ---- the simultaneous substitution ----

  /** The placeholder that the text starts with, as a list of at most one key. */
  function Leading(text: string, keys: seq<string>): (found: seq<string>)
    ensures |found| <= 1
    ensures found != [] ==> found[0] in keys && Pattern(found[0]) <= text
    ensures found == [] ==> forall k :: k in keys ==> !(Pattern(k) <= text)
    decreases |keys|
  {
    if keys == [] then []
    else if Pattern(keys[0]) <= text then [keys[0]]
    else Leading(text, keys[1..])
  }

  /** One pass over the template: each placeholder becomes its value, every other character stays. */
  function Simultaneous(text: string, keys: seq<string>, values: Values): string
    decreases |text|
  {
    if text == "" then ""
    else
      var found := Leading(text, keys);
      if found != [] then ValueOf(values, found[0]) + Simultaneous(text[|Pattern(found[0])|..], keys, values)
      else [text[0]] + Simultaneous(text[1..], keys, values)
  }

  // ---- templates as tokens ----

  datatype Token = Text(s: string) | Hole(key: string)

  function Spell(t: Token): string {
    match t
    case Text(s) => s
    case Hole(key) => Pattern(key)
  }

  function Flatten(ts: seq<Token>): string {
    if ts == [] then "" else Spell(ts[0]) + Flatten(ts[1..])
  }

  function Parse(text: string, keys: seq<string>): seq<Token>
    decreases |text|
  {
    if text == "" then []
    else
      var found := Leading(text, keys);
      if found != [] then [Hole(found[0])] + Parse(text[|Pattern(found[0])|..], keys)
      else [Text([text[0]])] + Parse(text[1..], keys)
  }

  function FillOne(t: Token, key: string, value: string): Token {
    if t == Hole(key) then Text(value) else t
  }

  function Fill(ts: seq<Token>, key: string, value: string): seq<Token> {
    if ts == [] then [] else [FillOne(ts[0], key, value)] + Fill(ts[1..], key, value)
  }

  function FillAll(ts: seq<Token>, keys: seq<string>, values: Values): seq<Token>
    decreases |keys|
  {
    if keys == [] then ts else FillAll(Fill(ts, keys[0], ValueOf(values, keys[0])), keys[1..], values)
  }

  /** No occurrence of the key's pattern begins in this token, unless the token is its hole. */
  ghost predicate Unspelled(ts: seq<Token>, key: string)
    requires ts != []
  {
    ts[0] == Hole(key) || forall i :: 0 <= i < |Spell(ts[0])| ==> !(Pattern(key) <= Flatten(ts)[i..])
  }

  /** Every occurrence of the key's pattern in the text is one of its holes. */
  ghost predicate Aligned(ts: seq<Token>, key: string) {
    ts == [] || (Unspelled(ts, key) && Aligned(ts[1..], key))
  }

  /** At each replacement, no value together with its neighbouring text spells the placeholder being replaced. */
  ghost predicate Clean(ts: seq<Token>, keys: seq<string>, values: Values)
    decreases |keys|
  {
    keys == [] || (Aligned(ts, keys[0]) && Clean(Fill(ts, keys[0], ValueOf(values, keys[0])), keys[1..], values))
  }

  lemma {:induction false} ParseSpells(text: string, keys: seq<string>)
    ensures Flatten(Parse(text, keys)) == text
    decreases |text|
  {
    if text != "" {
      var found := Leading(text, keys);
      var ts := Parse(text, keys);
      if found != [] {
        var rest := text[|Pattern(found[0])|..];
        ParseSpells(rest, keys);
        assert ts[1..] == Parse(rest, keys);
        assert text == Pattern(found[0]) + rest;
      } else {
        ParseSpells(text[1..], keys);
        assert ts[1..] == Parse(text[1..], keys);
        assert text == [text[0]] + text[1..];
      }
    }
  }

  /** Text in which no occurrence begins is copied. */
  lemma {:induction false} ReplaceSkips(head: string, tail: string, pattern: string, value: string)
    requires pattern != ""
    requires forall i :: 0 <= i < |head| ==> !(pattern <= (head + tail)[i..])
    ensures Replace(head + tail, pattern, value) == head + Replace(tail, pattern, value)
  {
    if head == "" {
      assert head + tail == tail;
    } else {
      assert (head + tail)[0..] == head + tail;
      assert (head + tail)[1..] == head[1..] + tail;
      forall i | 0 <= i < |head[1..]| ensures !(pattern <= (head[1..] + tail)[i..]) {
        assert (head[1..] + tail)[i..] == (head + tail)[i + 1..];
      }
      ReplaceSkips(head[1..], tail, pattern, value);
      assert head == [head[0]] + head[1..];
    }
  }

  lemma {:induction false} ReplaceFills(ts: seq<Token>, key: string, value: string)
    requires Aligned(ts, key)
    ensures Replace(Flatten(ts), Pattern(key), value) == Flatten(Fill(ts, key, value))
  {
    if ts != [] {
      var rest := Flatten(ts[1..]);
      ReplaceFills(ts[1..], key, value);
      assert Fill(ts, key, value)[1..] == Fill(ts[1..], key, value);
      if ts[0] == Hole(key) {
        assert Flatten(ts)[|Pattern(key)|..] == rest;
      } else {
        forall i | 0 <= i < |Spell(ts[0])| ensures !(Pattern(key) <= (Spell(ts[0]) + rest)[i..]) {
          assert !(Pattern(key) <= Flatten(ts)[i..]);
        }
        ReplaceSkips(Spell(ts[0]), rest, Pattern(key), value);
      }
    }
  }

  lemma {:induction false} SequentialFills(ts: seq<Token>, keys: seq<string>, values: Values)
    requires Clean(ts, keys, values)
    ensures Sequential(Flatten(ts), keys, values) == Flatten(FillAll(ts, keys, values))
    decreases |keys|
  {
    if keys != [] {
      ReplaceFills(ts, keys[0], ValueOf(values, keys[0]));
      SequentialFills(Fill(ts, keys[0], ValueOf(values, keys[0])), keys[1..], values);
    }
  }

  lemma {:induction false} FillCons(t: Token, ts: seq<Token>, key: string, value: string)
    ensures Fill([t] + ts, key, value) == [FillOne(t, key, value)] + Fill(ts, key, value)
  {
    assert ([t] + ts)[1..] == ts;
  }

  function FilledToken(t: Token, keys: seq<string>, values: Values): Token {
    if t.Hole? && t.key in keys then Text(ValueOf(values, t.key)) else t
  }

  lemma {:induction false} FillAllCons(t: Token, ts: seq<Token>, keys: seq<string>, values: Values)
    ensures FillAll([t] + ts, keys, values) == [FilledToken(t, keys, values)] + FillAll(ts, keys, values)
    decreases |keys|
  {
    if keys != [] {
      var value := ValueOf(values, keys[0]);
      FillCons(t, ts, keys[0], value);
      FillAllCons(FillOne(t, keys[0], value), Fill(ts, keys[0], value), keys[1..], values);
    }
  }

  lemma {:induction false} FillNothing(keys: seq<string>, values: Values)
    ensures FillAll([], keys, values) == []
    decreases |keys|
  {
    if keys != [] {
      FillNothing(keys[1..], values);
    }
  }

  lemma {:induction false} FilledTemplate(text: string, keys: seq<string>, values: Values)
    ensures Flatten(FillAll(Parse(text, keys), keys, values)) == Simultaneous(text, keys, values)
    decreases |text|
  {
    if text == "" {
      FillNothing(keys, values);
    } else {
      var found := Leading(text, keys);
      var t := if found != [] then Hole(found[0]) else Text([text[0]]);
      var rest := if found != [] then text[|Pattern(found[0])|..] else text[1..];
      FilledTemplate(rest, keys, values);
      FillAllCons(t, Parse(rest, keys), keys, values);
      var filled := FillAll(Parse(text, keys), keys, values);
      assert filled[1..] == FillAll(Parse(rest, keys), keys, values);
    }
  }

  /**
   Where no value spells a placeholder with its neighbours, the eight replacements are one simultaneous
   substitution.
   */
  lemma RenderIsSimultaneous(template: string, values: Values)
    requires Clean(Parse(template, PLACEHOLDERS), PLACEHOLDERS, values)
    ensures Sequential(template, PLACEHOLDERS, values) == Simultaneous(template, PLACEHOLDERS, values)
  {
    var ts := Parse(template, PLACEHOLDERS);
    ParseSpells(template, PLACEHOLDERS);
    SequentialFills(ts, PLACEHOLDERS, values);
    FilledTemplate(template, PLACEHOLDERS, values);
  }

  // ---- a condition on the text alone ----

  /** First characters of placeholders. */
  predicate Opens(c: char) {
    c in "aorciq"
  }

  /** In a value, every opening brace is followed by a character that starts no placeholder. */
  predicate HarmlessValue(s: string) {
    forall i :: 0 <= i < |s| && s[i] == '{' ==> i + 1 < |s| && !Opens(s[i + 1])
  }

  /** After an opening brace this text spells no placeholder, whatever follows it. */
  predicate Blunt(s: string) {
    forall k :: k in PLACEHOLDERS ==> !(s <= k + "}") && !(k + "}" <= s)
  }

  /**
   In the template, every opening brace that is not a placeholder's is the last character, or is followed by a
   character that starts no placeholder's name, or by a placeholder whose value is blunt.
   */
  predicate HarmlessTemplate(text: string, values: Values) {
    forall i :: 0 <= i < |text| && text[i] == '{' && Leading(text[i..], PLACEHOLDERS) == [] ==>
                  HarmlessBrace(text, i, values)
  }

  predicate HarmlessBrace(text: string, i: nat, values: Values)
    requires i < |text|
  {
    i + 1 < |text| ==>
      var found := Leading(text[i + 1..], PLACEHOLDERS);
      if found == [] then !Opens(text[i + 1]) else Blunt(ValueOf(values, found[0]))
  }

  predicate IsKey(key: string) {
    && key in PLACEHOLDERS && key != "" && Opens(key[0])
    && forall i :: 0 <= i < |key| ==> key[i] != '{' && key[i] != '}'
  }

  lemma PlaceholdersAreKeys(key: string)
    requires key in PLACEHOLDERS
    ensures IsKey(key)
  {
  }

  /** A brace at the end of a text token is the last character, or a blunt text or a hole for one follows it. */
  ghost predicate Harmless(ts: seq<Token>, values: Values) {
    forall j :: 0 <= j < |ts| ==>
                  && (ts[j].Hole? ==> IsKey(ts[j].key))
                  && (ts[j].Text? ==>
                        forall i :: 0 <= i < |ts[j].s| && ts[j].s[i] == '{' ==> Guarded(ts, j, i, values))
  }

  predicate Guarded(ts: seq<Token>, j: nat, i: nat, values: Values)
    requires j < |ts| && ts[j].Text? && i < |ts[j].s|
  {
    if i + 1 < |ts[j].s| then !Opens(ts[j].s[i + 1])
    else j + 1 < |ts| ==> Blunt(Shown(ts[j + 1], values))
  }

  /** What stands in the place of a token in the end. */
  function Shown(t: Token, values: Values): string {
    match t
    case Text(s) => s
    case Hole(key) => ValueOf(values, key)
  }

  lemma {:induction false} HarmlessIsAligned(ts: seq<Token>, key: string, values: Values)
    requires Harmless(ts, values) && IsKey(key)
    ensures Aligned(ts, key)
  {
    if ts != [] {
      HarmlessTail(ts, values);
      HarmlessIsAligned(ts[1..], key, values);
      if ts[0] != Hole(key) {
        forall i | 0 <= i < |Spell(ts[0])| ensures !(Pattern(key) <= Flatten(ts)[i..]) {
          NoOccurrence(ts, key, i, values);
        }
      }
    }
  }

  lemma HarmlessTail(ts: seq<Token>, values: Values)
    requires Harmless(ts, values) && ts != []
    ensures Harmless(ts[1..], values)
  {
    var rest := ts[1..];
    forall j | 0 <= j < |rest|
      ensures rest[j].Hole? ==> IsKey(rest[j].key)
      ensures rest[j].Text? ==> forall i :: 0 <= i < |rest[j].s| && rest[j].s[i] == '{' ==> Guarded(rest, j, i, values)
    {
      assert rest[j] == ts[j + 1];
      if rest[j].Text? {
        forall i | 0 <= i < |rest[j].s| && rest[j].s[i] == '{' ensures Guarded(rest, j, i, values) {
          assert Guarded(ts, j + 1, i, values);
        }
      }
    }
  }

  lemma Mismatch(pattern: string, text: string, n: nat)
    requires n < |pattern| && (n >= |text| || text[n] != pattern[n])
    ensures !(pattern <= text)
  {
  }

  lemma AfterBrace(ts: seq<Token>, key: string, values: Values)
    requires ts != [] && IsKey(key) && Blunt(Shown(ts[0], values))
    ensures !(Pattern(key) <= "{" + Flatten(ts))
  {
    hide IsKey, Opens;
    var s, rest := Spell(ts[0]), Flatten(ts[1..]);
    var text := "{" + (s + rest);
    PatternOpens(key);
    if ts[0].Hole? {
      assert text[1] == '{';
      Mismatch(Pattern(key), text, 1);
    } else {
      assert Pattern(key) == "{" + (key + "}");
      PrefixesCompare(s, rest, key + "}");
    }
  }

  lemma PrefixesCompare(s: string, rest: string, q: string)
    ensures "{" + q <= "{" + (s + rest) ==> s <= q || q <= s
  {
    if "{" + q <= "{" + (s + rest) {
      assert ("{" + q)[1..] == q && ("{" + (s + rest))[1..] == s + rest;
    }
  }

  lemma PatternOpens(key: string)
    requires IsKey(key)
    ensures key in PLACEHOLDERS
    ensures |Pattern(key)| > 2 && Pattern(key)[0] == '{' && Pattern(key)[1] != '{' && Opens(Pattern(key)[1])
  {
  }

  lemma NoOccurrence(ts: seq<Token>, key: string, i: nat, values: Values)
    requires Harmless(ts, values) && IsKey(key) && ts != [] && ts[0] != Hole(key) && i < |Spell(ts[0])|
    ensures !(Pattern(key) <= Flatten(ts)[i..])
  {
    hide IsKey, Blunt, Flatten;
    if ts[0].Text? {
      if ts[0].s[i] == '{' {
        assert Guarded(ts, 0, i, values);
      }
      NotFromText(ts, key, i, values);
    } else {
      NotFromHole(ts, key, i);
    }
  }

  lemma NotFromHole(ts: seq<Token>, key: string, i: nat)
    requires ts != [] && ts[0].Hole? && IsKey(ts[0].key) && IsKey(key) && ts[0].key != key && i < |Spell(ts[0])|
    ensures !(Pattern(key) <= Flatten(ts)[i..])
  {
    hide IsKey;
    var here := Flatten(ts)[i..];
    NoBraces(ts[0].key);
    assert here[0] == Spell(ts[0])[i];
    if i > 0 {
      Mismatch(Pattern(key), here, 0);
    } else {
      assert here == Flatten(ts);
      OneHole(ts[0].key, key, here);
    }
  }

  lemma NotFromText(ts: seq<Token>, key: string, i: nat, values: Values)
    requires IsKey(key) && ts != [] && ts[0].Text? && i < |ts[0].s|
    requires ts[0].s[i] == '{' ==> Guarded(ts, 0, i, values)
    ensures !(Pattern(key) <= Flatten(ts)[i..])
  {
    hide IsKey, Opens, Blunt, Pattern;
    var s, rest := ts[0].s, Flatten(ts[1..]);
    var here := Flatten(ts)[i..];
    PatternOpens(key);
    assert here == s[i..] + rest;
    if s[i] != '{' {
      Mismatch(Pattern(key), here, 0);
    } else if i + 1 < |s| {
      assert here[1] == s[i + 1];
      Mismatch(Pattern(key), here, 1);
    } else if |ts| == 1 {
      Mismatch(Pattern(key), here, 1);
    } else {
      assert ts[1..][0] == ts[1];
      assert here == "{" + rest;
      AfterBrace(ts[1..], key, values);
    }
  }

  /** A text that begins with one placeholder does not begin with another. */
  lemma OneHole(other: string, key: string, text: string)
    requires IsKey(other) && IsKey(key) && other != key && Pattern(other) <= text
    ensures !(Pattern(key) <= text)
  {
    hide IsKey;
    var q, p := Pattern(other), Pattern(key);
    NoBraces(key);
    NoBraces(other);
    assert forall n :: 0 <= n < |q| ==> text[n] == q[n];
    if |other| < |key| {
      assert q[|other| + 1] == '}' && p[|other| + 1] == key[|other|];
      Mismatch(p, text, |other| + 1);
    } else if |key| < |other| {
      assert q[|key| + 1] == other[|key|] && p[|key| + 1] == '}';
      Mismatch(p, text, |key| + 1);
    } else {
      var n := FirstDifference(key, other);
      assert q[n + 1] == other[n] && p[n + 1] == key[n];
      Mismatch(p, text, n + 1);
    }
  }

  lemma FirstDifference(a: string, b: string) returns (n: nat)
    requires |a| == |b| && a != b
    ensures n < |a| && a[n] != b[n]
  {
    n :| 0 <= n < |a| && a[n] != b[n];
  }

  lemma NoBraces(key: string)
    requires IsKey(key)
    ensures forall i :: 0 <= i < |key| ==> key[i] != '{' && key[i] != '}'
    ensures forall i :: 0 < i < |Pattern(key)| ==> Pattern(key)[i] != '{'
  {
  }

  lemma {:induction false} FillAt(ts: seq<Token>, key: string, value: string)
    ensures |Fill(ts, key, value)| == |ts|
    ensures forall j :: 0 <= j < |ts| ==> Fill(ts, key, value)[j] == FillOne(ts[j], key, value)
  {
    if ts != [] {
      FillAt(ts[1..], key, value);
    }
  }

  lemma FillStaysHarmless(ts: seq<Token>, key: string, values: Values)
    requires Harmless(ts, values) && HarmlessValue(ValueOf(values, key))
    ensures Harmless(Fill(ts, key, ValueOf(values, key)), values)
  {
    var value := ValueOf(values, key);
    FillAt(ts, key, value);
    var fs := Fill(ts, key, value);
    forall j | 0 <= j < |fs| && fs[j].Text?
      ensures forall i :: 0 <= i < |fs[j].s| && fs[j].s[i] == '{' ==> Guarded(fs, j, i, values)
    {
      forall i | 0 <= i < |fs[j].s| && fs[j].s[i] == '{' ensures Guarded(fs, j, i, values) {
        if ts[j].Text? {
          assert Guarded(ts, j, i, values);
        }
      }
    }
  }

  lemma {:induction false} HarmlessIsClean(ts: seq<Token>, keys: seq<string>, values: Values)
    requires Harmless(ts, values) && (forall k :: k in keys ==> IsKey(k))
    requires forall k :: k in keys ==> HarmlessValue(ValueOf(values, k))
    ensures Clean(ts, keys, values)
    decreases |keys|
  {
    if keys != [] {
      HarmlessIsAligned(ts, keys[0], values);
      FillStaysHarmless(ts, keys[0], values);
      HarmlessIsClean(Fill(ts, keys[0], ValueOf(values, keys[0])), keys[1..], values);
    }
  }

  lemma HarmlessRest(text: string, values: Values, skip: nat)
    requires HarmlessTemplate(text, values) && skip <= |text|
    ensures HarmlessTemplate(text[skip..], values)
  {
    hide Leading, Opens;
    var rest := text[skip..];
    forall i | 0 <= i < |rest| && rest[i] == '{' && Leading(rest[i..], PLACEHOLDERS) == []
      ensures HarmlessBrace(rest, i, values)
    {
      assert rest[i..] == text[skip + i..];
      assert HarmlessBrace(text, skip + i, values);
      if i + 1 < |rest| {
        assert rest[i + 1..] == text[skip + i + 1..];
      }
    }
  }

  lemma LoneBrace(text: string, values: Values)
    requires HarmlessTemplate(text, values) && text != "" && text[0] == '{' && Leading(text, PLACEHOLDERS) == []
    ensures |text| > 1 ==> HarmlessBrace(text, 0, values)
  {
    hide Leading, HarmlessBrace;
    assert text[0..] == text;
    assert HarmlessBrace(text, 0, values);
  }

  lemma ParseHead(text: string)
    requires text != ""
    ensures Parse(text, PLACEHOLDERS) != []
    ensures var found := Leading(text, PLACEHOLDERS);
            Parse(text, PLACEHOLDERS)[0] == if found != [] then Hole(found[0]) else Text([text[0]])
  {
    hide Leading;
  }

  /** A character that starts no placeholder's name is blunt alone. */
  lemma BluntCharacter(c: char)
    requires !Opens(c)
    ensures Blunt([c])
  {
    forall k | k in PLACEHOLDERS ensures !([c] <= k + "}") && !(k + "}" <= [c]) {
      PlaceholdersAreKeys(k);
      assert (k + "}")[0] == k[0];
    }
  }

  lemma {:induction false} ParseIsHarmless(text: string, values: Values)
    requires HarmlessTemplate(text, values)
    ensures Harmless(Parse(text, PLACEHOLDERS), values)
    decreases |text|
  {
    hide HarmlessTemplate, Leading, IsKey, Opens, Harmless, Blunt;
    if text == "" {
      NothingIsHarmless(values);
    } else {
      var found := Leading(text, PLACEHOLDERS);
      var rest := if found != [] then text[|Pattern(found[0])|..] else text[1..];
      HarmlessRest(text, values, |text| - |rest|);
      ParseIsHarmless(rest, values);
      var ts := Parse(text, PLACEHOLDERS);
      assert ts[1..] == Parse(rest, PLACEHOLDERS);
      if found != [] {
        PlaceholdersAreKeys(found[0]);
      } else if text[0] == '{' {
        LoneBrace(text, values);
        if rest == "" {
          assert ts == [Text("{")];
        } else {
          var next := Leading(rest, PLACEHOLDERS);
          ParseHead(rest);
          assert ts[1] == Parse(rest, PLACEHOLDERS)[0];
          if next == [] {
            BluntCharacter(rest[0]);
          }
        }
      }
      ConsHarmless(ts, values);
    }
  }

  lemma NothingIsHarmless(values: Values)
    ensures Harmless([], values)
  {
  }

  lemma ConsHarmless(ts: seq<Token>, values: Values)
    requires ts != [] && Harmless(ts[1..], values)
    requires ts[0].Hole? ==> IsKey(ts[0].key)
    requires ts[0].Text? ==> forall i :: 0 <= i < |ts[0].s| && ts[0].s[i] == '{' ==> Guarded(ts, 0, i, values)
    ensures Harmless(ts, values)
  {
    var us := ts[1..];
    forall j | 0 <= j < |ts|
      ensures ts[j].Hole? ==> IsKey(ts[j].key)
      ensures ts[j].Text? ==> forall i :: 0 <= i < |ts[j].s| && ts[j].s[i] == '{' ==> Guarded(ts, j, i, values)
    {
      if j > 0 {
        assert ts[j] == us[j - 1];
        if ts[j].Text? {
          forall i | 0 <= i < |ts[j].s| && ts[j].s[i] == '{' ensures Guarded(ts, j, i, values) {
            assert Guarded(us, j - 1, i, values);
          }
        }
      }
    }
  }

  /**
   In particular for templates and values whose other braces open no placeholder name, as those of JSON text and
   doubled braces do not: then all placeholders are replaced at once and every other brace survives.
   */
  lemma HarmlessRendersSimultaneously(template: string, values: Values)
    requires HarmlessTemplate(template, values)
    requires forall k :: k in PLACEHOLDERS ==> HarmlessValue(ValueOf(values, k))
    ensures Sequential(template, PLACEHOLDERS, values) == Simultaneous(template, PLACEHOLDERS, values)
  {
    forall k | k in PLACEHOLDERS ensures IsKey(k) {
      PlaceholdersAreKeys(k);
    }
    ParseIsHarmless(template, values);
    HarmlessIsClean(Parse(template, PLACEHOLDERS), PLACEHOLDERS, values);
    RenderIsSimultaneous(template, values);
  }

  // ---- the condition is exact, and needed ----

  /** How many occurrences `Replace` replaces. */
  function Count(text: string, pattern: string): nat
    requires pattern != ""
  {
    if text == "" then 0
    else if pattern <= text then 1 + Count(text[|pattern|..], pattern)
    else Count(text[1..], pattern)
  }

  /** The replacements made by each pass. */
  function PassCounts(text: string, keys: seq<string>, values: Values): seq<nat>
    decreases |keys|
  {
    if keys == [] then []
    else
      var next := Replace(text, Pattern(keys[0]), ValueOf(values, keys[0]));
      [Count(text, Pattern(keys[0]))] + PassCounts(next, keys[1..], values)
  }

  function Holes(ts: seq<Token>, key: string): nat {
    if ts == [] then 0 else (if ts[0] == Hole(key) then 1 else 0) + Holes(ts[1..], key)
  }

  /** The placeholders of the template, key by key. */
  function HoleCounts(ts: seq<Token>, keys: seq<string>): seq<nat>
    decreases |keys|
  {
    if keys == [] then [] else [Holes(ts, keys[0])] + HoleCounts(ts, keys[1..])
  }

  lemma {:induction false} CountSkips(text: string, key: string, n: nat)
    requires IsKey(key) && n <= |text|
    requires forall i :: 0 <= i < n ==> !(Pattern(key) <= text[i..])
    ensures Count(text, Pattern(key)) == Count(text[n..], Pattern(key))
  {
    if n == 0 {
      assert text[0..] == text;
    } else {
      assert text[0..] == text && text[1..][n - 1..] == text[n..];
      forall i | 0 <= i < n - 1 ensures !(Pattern(key) <= text[1..][i..]) {
        assert text[1..][i..] == text[i + 1..];
      }
      CountSkips(text[1..], key, n - 1);
    }
  }

  /** Occurrences of a placeholder do not overlap, so every one of them is counted. */
  lemma CountStep(text: string, key: string)
    requires IsKey(key) && text != ""
    ensures Count(text, Pattern(key)) == (if Pattern(key) <= text then 1 else 0) + Count(text[1..], Pattern(key))
  {
    var p := Pattern(key);
    if p <= text {
      NoBraces(key);
      forall i | 0 <= i < |p| - 1 ensures !(p <= text[1..][i..]) {
        assert text[1..][i..] == text[i + 1..] && text[i + 1] == p[i + 1];
        Mismatch(p, text[1..][i..], 0);
      }
      CountSkips(text[1..], key, |p| - 1);
      assert text[1..][|p| - 1..] == text[|p|..];
    }
  }

  lemma {:induction false} CountAppend(head: string, tail: string, key: string)
    requires IsKey(key)
    ensures Count(head + tail, Pattern(key)) >= Count(tail, Pattern(key))
    ensures Count(head + tail, Pattern(key)) == Count(tail, Pattern(key)) <==>
            forall i :: 0 <= i < |head| ==> !(Pattern(key) <= (head + tail)[i..])
  {
    hide IsKey;
    var all := head + tail;
    if head == "" {
      assert all == tail;
    } else {
      assert all[0..] == all && all[1..] == head[1..] + tail;
      CountStep(all, key);
      CountAppend(head[1..], tail, key);
      assert forall i :: 0 <= i < |head| - 1 ==> all[1..][i..] == all[i + 1..];
      assert (forall i :: 0 <= i < |head| - 1 ==> !(Pattern(key) <= all[1..][i..]))
        <==> (forall i :: 0 < i < |head| ==> !(Pattern(key) <= all[i..])) by {
        assert forall i :: 0 < i < |head| ==> all[i..] == all[1..][i - 1..];
      }
    }
  }

  lemma {:induction false} CountHoles(ts: seq<Token>, key: string)
    requires IsKey(key)
    ensures Count(Flatten(ts), Pattern(key)) >= Holes(ts, key)
    ensures Count(Flatten(ts), Pattern(key)) == Holes(ts, key) <==> Aligned(ts, key)
  {
    hide IsKey;
    if ts != [] {
      CountHoles(ts[1..], key);
      if ts[0] == Hole(key) {
        assert Flatten(ts)[|Pattern(key)|..] == Flatten(ts[1..]);
      } else {
        CountAppend(Spell(ts[0]), Flatten(ts[1..]), key);
      }
    }
  }

  lemma {:induction false} HolesAfterFill(ts: seq<Token>, key: string, value: string, other: string)
    requires other != key
    ensures Holes(Fill(ts, key, value), other) == Holes(ts, other)
  {
    if ts != [] {
      HolesAfterFill(ts[1..], key, value, other);
      assert Fill(ts, key, value)[1..] == Fill(ts[1..], key, value);
    }
  }

  lemma {:induction false} HoleCountsAfterFill(ts: seq<Token>, key: string, value: string, keys: seq<string>)
    requires key !in keys
    ensures HoleCounts(Fill(ts, key, value), keys) == HoleCounts(ts, keys)
    decreases |keys|
  {
    if keys != [] {
      HolesAfterFill(ts, key, value, keys[0]);
      HoleCountsAfterFill(ts, key, value, keys[1..]);
    }
  }

  lemma {:induction false} CleanByCounts(ts: seq<Token>, keys: seq<string>, values: Values)
    requires forall k :: k in keys ==> IsKey(k)
    requires forall i, j :: 0 <= i < j < |keys| ==> keys[i] != keys[j]
    ensures PassCounts(Flatten(ts), keys, values) == HoleCounts(ts, keys) <==> Clean(ts, keys, values)
    decreases |keys|
  {
    hide IsKey;
    if keys != [] {
      var key, rest, value := keys[0], keys[1..], ValueOf(values, keys[0]);
      var passes, holes := PassCounts(Flatten(ts), keys, values), HoleCounts(ts, keys);
      CountHoles(ts, key);
      assert passes[0] == Count(Flatten(ts), Pattern(key)) && holes[0] == Holes(ts, key);
      if Aligned(ts, key) {
        ReplaceFills(ts, key, value);
        HoleCountsAfterFill(ts, key, value, rest);
        CleanByCounts(Fill(ts, key, value), rest, values);
        assert passes[1..] == PassCounts(Flatten(Fill(ts, key, value)), rest, values);
        assert holes[1..] == HoleCounts(ts, rest);
        assert passes == holes <==> passes[1..] == holes[1..];
      }
    }
  }

  /**
   The condition holds exactly when each of the eight passes replaces the template's own placeholders and
   nothing else.
   */
  lemma CleanMeansNothingIsRescanned(template: string, values: Values)
    ensures Clean(Parse(template, PLACEHOLDERS), PLACEHOLDERS, values) <==>
            PassCounts(template, PLACEHOLDERS, values) == HoleCounts(Parse(template, PLACEHOLDERS), PLACEHOLDERS)
  {
    forall k | k in PLACEHOLDERS ensures IsKey(k) {
      PlaceholdersAreKeys(k);
    }
    PlaceholdersAreDistinct();
    ParseSpells(template, PLACEHOLDERS);
    CleanByCounts(Parse(template, PLACEHOLDERS), PLACEHOLDERS, values);
  }

  lemma PlaceholdersAreDistinct()
    ensures forall i, j :: 0 <= i < j < |PLACEHOLDERS| ==> PLACEHOLDERS[i] != PLACEHOLDERS[j]
  {
    assert PLACEHOLDERS[1][1] == 'g' && PLACEHOLDERS[6][1] == 'l';
  }

  // ---- for values without opening braces the two readings agree only if nothing is rescanned ----

  function Braces(text: string): nat {
    if text == "" then 0 else (if text[0] == '{' then 1 else 0) + Braces(text[1..])
  }

  lemma {:induction false} BracesAppend(a: string, b: string)
    ensures Braces(a + b) == Braces(a) + Braces(b)
  {
    if a == "" {
      assert a + b == b;
    } else {
      assert (a + b)[1..] == a[1..] + b;
      BracesAppend(a[1..], b);
    }
  }

  lemma {:induction false} NoBraceInside(text: string)
    requires '{' !in text
    ensures Braces(text) == 0
  {
    if text != "" {
      NoBraceInside(text[1..]);
    }
  }

  lemma BracesOfPattern(key: string)
    requires IsKey(key)
    ensures Braces(Pattern(key)) == 1
  {
    NoBraces(key);
    var rest := Pattern(key)[1..];
    assert '{' !in rest;
    NoBraceInside(rest);
  }

  /** Each replacement by a value without braces removes one. */
  lemma {:induction false} ReplaceBraces(text: string, key: string, value: string)
    requires IsKey(key) && '{' !in value
    ensures Braces(Replace(text, Pattern(key), value)) + Count(text, Pattern(key)) == Braces(text)
    decreases |text|
  {
    hide IsKey;
    var p := Pattern(key);
    if text != "" {
      if p <= text {
        var rest := text[|p|..];
        ReplaceBraces(rest, key, value);
        BracesAppend(value, Replace(rest, p, value));
        NoBraceInside(value);
        BracesOfPattern(key);
        assert text == p + rest;
        BracesAppend(p, rest);
      } else {
        ReplaceBraces(text[1..], key, value);
        BracesAppend([text[0]], Replace(text[1..], p, value));
      }
    }
  }

  lemma {:induction false} SequentialBraces(text: string, keys: seq<string>, values: Values)
    requires forall k :: k in keys ==> IsKey(k) && '{' !in ValueOf(values, k)
    ensures Braces(Sequential(text, keys, values)) + Total(PassCounts(text, keys, values)) == Braces(text)
    decreases |keys|
  {
    hide IsKey;
    if keys != [] {
      var next := Replace(text, Pattern(keys[0]), ValueOf(values, keys[0]));
      ReplaceBraces(text, keys[0], ValueOf(values, keys[0]));
      SequentialBraces(next, keys[1..], values);
      assert PassCounts(text, keys, values)[1..] == PassCounts(next, keys[1..], values);
    }
  }

  function Total(ns: seq<nat>): nat {
    if ns == [] then 0 else ns[0] + Total(ns[1..])
  }

  lemma {:induction false} SimultaneousBraces(text: string, keys: seq<string>, values: Values)
    requires forall k :: k in keys ==> IsKey(k) && '{' !in ValueOf(values, k)
    requires forall i, j :: 0 <= i < j < |keys| ==> keys[i] != keys[j]
    ensures Braces(Simultaneous(text, keys, values)) + Total(HoleCounts(Parse(text, keys), keys)) == Braces(text)
    decreases |text|
  {
    hide IsKey;
    if text == "" {
      NoHoles(keys);
    } else {
      var found := Leading(text, keys);
      var t := if found != [] then Hole(found[0]) else Text([text[0]]);
      var rest := if found != [] then text[|Pattern(found[0])|..] else text[1..];
      var shown := if found != [] then ValueOf(values, found[0]) else [text[0]];
      SimultaneousBraces(rest, keys, values);
      HolesCons(t, Parse(rest, keys), keys);
      BracesAppend(shown, Simultaneous(rest, keys, values));
      assert Parse(text, keys) == [t] + Parse(rest, keys);
      assert text == Spell(t) + rest;
      BracesAppend(Spell(t), rest);
      if found != [] {
        BracesOfPattern(found[0]);
        NoBraceInside(shown);
      }
    }
  }

  lemma {:induction false} NoHoles(keys: seq<string>)
    ensures Total(HoleCounts([], keys)) == 0
    decreases |keys|
  {
    if keys != [] {
      NoHoles(keys[1..]);
      assert HoleCounts([], keys)[1..] == HoleCounts([], keys[1..]);
    }
  }

  lemma {:induction false} HolesCons(t: Token, ts: seq<Token>, keys: seq<string>)
    requires forall i, j :: 0 <= i < j < |keys| ==> keys[i] != keys[j]
    ensures Total(HoleCounts([t] + ts, keys)) ==
            Total(HoleCounts(ts, keys)) + if t.Hole? && t.key in keys then 1 else 0
    decreases |keys|
  {
    if keys != [] {
      HolesCons(t, ts, keys[1..]);
      assert ([t] + ts)[1..] == ts;
      assert HoleCounts([t] + ts, keys)[1..] == HoleCounts([t] + ts, keys[1..]);
      assert HoleCounts(ts, keys)[1..] == HoleCounts(ts, keys[1..]);
      assert t.Hole? && t.key == keys[0] ==> t.key !in keys[1..];
    }
  }

  /** A pass over one placeholder destroys no occurrence of another. */
  lemma {:induction false} OthersSurvive(text: string, key: string, value: string, other: string)
    requires IsKey(key) && IsKey(other) && key != other
    ensures Count(Replace(text, Pattern(key), value), Pattern(other)) >= Count(text, Pattern(other))
    decreases |text|
  {
    hide IsKey;
    var p, q := Pattern(key), Pattern(other);
    if text != "" {
      if p <= text {
        var rest := text[|p|..];
        OthersSurvive(rest, key, value, other);
        CountAppend(value, Replace(rest, p, value), other);
        SkipsOther(text, key, other);
      } else if q <= text {
        var rest := text[|q|..];
        OthersSurvive(rest, key, value, other);
        KeepsOther(text, key, value, other);
        assert (q + Replace(rest, p, value))[|q|..] == Replace(rest, p, value);
      } else {
        OthersSurvive(text[1..], key, value, other);
        CountAppend([text[0]], Replace(text[1..], p, value), other);
      }
    }
  }

  lemma SkipsOther(text: string, key: string, other: string)
    requires IsKey(key) && IsKey(other) && key != other && Pattern(key) <= text
    ensures Count(text, Pattern(other)) == Count(text[|Pattern(key)|..], Pattern(other))
  {
    NotInside(text, key, other);
    CountSkips(text, other, |Pattern(key)|);
  }

  lemma KeepsOther(text: string, key: string, value: string, other: string)
    requires IsKey(key) && IsKey(other) && key != other && Pattern(other) <= text
    ensures Replace(text, Pattern(key), value)
            == Pattern(other) + Replace(text[|Pattern(other)|..], Pattern(key), value)
  {
    var q := Pattern(other);
    NotInside(text, other, key);
    assert text == q + text[|q|..];
    ReplaceSkips(q, text[|q|..], Pattern(key), value);
  }

  /** No placeholder begins inside another. */
  lemma NotInside(text: string, key: string, other: string)
    requires IsKey(key) && IsKey(other) && key != other && Pattern(key) <= text
    ensures forall i :: 0 <= i < |Pattern(key)| ==> !(Pattern(other) <= text[i..])
  {
    var p := Pattern(key);
    NoBraces(key);
    assert text[0..] == text;
    OneHole(key, other, text);
    forall i | 0 < i < |p| ensures !(Pattern(other) <= text[i..]) {
      assert text[i] == p[i];
      Mismatch(Pattern(other), text[i..], 0);
    }
  }

  lemma {:induction false} PassesDominate(text: string, keys: seq<string>, values: Values, i: nat)
    requires (forall k :: k in keys ==> IsKey(k)) && i < |keys|
    requires forall i, j :: 0 <= i < j < |keys| ==> keys[i] != keys[j]
    ensures |PassCounts(text, keys, values)| == |keys|
    ensures PassCounts(text, keys, values)[i] >= Count(text, Pattern(keys[i]))
    decreases |keys|
  {
    hide IsKey;
    var next := Replace(text, Pattern(keys[0]), ValueOf(values, keys[0]));
    if |keys| > 1 {
      PassesDominate(next, keys[1..], values, if i > 0 then i - 1 else 0);
    }
    if i > 0 {
      OthersSurvive(text, keys[0], ValueOf(values, keys[0]), keys[i]);
      assert keys[1..][i - 1] == keys[i];
    }
  }

  lemma {:induction false} HoleCountsAt(ts: seq<Token>, keys: seq<string>)
    ensures |HoleCounts(ts, keys)| == |keys|
    ensures forall i :: 0 <= i < |keys| ==> HoleCounts(ts, keys)[i] == Holes(ts, keys[i])
    decreases |keys|
  {
    if keys != [] {
      HoleCountsAt(ts, keys[1..]);
    }
  }

  lemma {:induction false} DominatedAndEqual(a: seq<nat>, b: seq<nat>)
    requires |a| == |b| && (forall i :: 0 <= i < |a| ==> a[i] >= b[i])
    ensures Total(a) >= Total(b) && (Total(a) == Total(b) ==> a == b)
  {
    if a != [] {
      DominatedAndEqual(a[1..], b[1..]);
      assert a == [a[0]] + a[1..] && b == [b[0]] + b[1..];
    }
  }

  /**
   For values without opening braces the eight replacements equal the simultaneous substitution if and only if no
   value spells a placeholder with its neighbours: whatever is rescanned costs a brace that is not given back.
   */
  lemma BracelessRendersIff(template: string, values: Values)
    requires forall k :: k in PLACEHOLDERS ==> '{' !in ValueOf(values, k)
    ensures Sequential(template, PLACEHOLDERS, values) == Simultaneous(template, PLACEHOLDERS, values) <==>
            Clean(Parse(template, PLACEHOLDERS), PLACEHOLDERS, values)
  {
    hide IsKey, Sequential, Simultaneous, Clean, Count;
    var keys := PLACEHOLDERS;
    var ts := Parse(template, keys);
    var passes, holes := PassCounts(template, keys, values), HoleCounts(ts, keys);
    forall k | k in keys ensures IsKey(k) {
      PlaceholdersAreKeys(k);
    }
    PlaceholdersAreDistinct();
    SequentialBraces(template, keys, values);
    SimultaneousBraces(template, keys, values);
    ParseSpells(template, keys);
    HoleCountsAt(ts, keys);
    forall i | 0 <= i < |keys| ensures |passes| == |keys| && passes[i] >= holes[i] {
      PassesDominate(template, keys, values, i);
      CountHoles(ts, keys[i]);
    }
    DominatedAndEqual(passes, holes);
    CleanMeansNothingIsRescanned(template, values);
    if Clean(ts, keys, values) {
      RenderIsSimultaneous(template, values);
    }
  }

  // ---- a value that mentions a later placeholder ----

  lemma {:induction false} SequentialSplits(text: string, before: seq<string>, after: seq<string>, values: Values)
    ensures Sequential(text, before + after, values) == Sequential(Sequential(text, before, values), after, values)
    decreases |before|
  {
    if before == [] {
      assert before + after == after;
    } else {
      assert (before + after)[1..] == before[1..] + after;
      SequentialSplits(Replace(text, Pattern(before[0]), ValueOf(values, before[0])), before[1..], after, values);
    }
  }

  /** One placeholder alone, under a pass. */
  lemma ReplaceAlone(other: string, key: string, value: string)
    requires IsKey(other) && IsKey(key)
    ensures Replace(Pattern(other), Pattern(key), value) == if other == key then value else Pattern(other)
  {
    var ts := [Hole(other)];
    HarmlessIsAligned(ts, key, map[]);
    ReplaceFills(ts, key, value);
    assert Flatten(ts) == Pattern(other);
    assert Fill(ts, key, value) == [FillOne(Hole(other), key, value)];
    assert Flatten(Fill(ts, key, value)) == Spell(FillOne(Hole(other), key, value)) + "";
  }

  lemma {:induction false} PlaceholderStays(other: string, keys: seq<string>, values: Values)
    requires IsKey(other) && other !in keys && forall k :: k in keys ==> IsKey(k)
    ensures Sequential(Pattern(other), keys, values) == Pattern(other)
    decreases |keys|
  {
    if keys != [] {
      ReplaceAlone(other, keys[0], ValueOf(values, keys[0]));
      PlaceholderStays(other, keys[1..], values);
    }
  }

  lemma {:induction false} BracelessStays(text: string, keys: seq<string>, values: Values)
    requires '{' !in text
    ensures Sequential(text, keys, values) == text
    decreases |keys|
  {
    if keys != [] {
      var p := Pattern(keys[0]);
      forall i | 0 <= i < |text| ensures !(p <= (text + "")[i..]) {
        Mismatch(p, (text + "")[i..], 0);
      }
      ReplaceSkips(text, "", p, ValueOf(values, keys[0]));
      assert text + "" == text;
      BracelessStays(text, keys[1..], values);
    }
  }

  /** The passes up to and including the n-th, on the placeholder of the n-th. */
  lemma UpTo(key: string, keys: seq<string>, n: nat, values: Values)
    requires n < |keys| && keys[n] == key && (forall k :: k in keys ==> IsKey(k))
    requires forall m :: 0 <= m < n ==> keys[m] != key
    ensures Sequential(Pattern(key), keys, values) == Sequential(ValueOf(values, key), keys[n + 1..], values)
  {
    hide IsKey;
    assert keys == keys[..n] + keys[n..];
    assert keys[n..][1..] == keys[n + 1..];
    PlaceholderStays(key, keys[..n], values);
    SequentialSplits(Pattern(key), keys[..n], keys[n..], values);
    ReplaceAlone(key, key, ValueOf(values, key));
  }

  lemma AloneSimultaneously(key: string, keys: seq<string>, values: Values)
    requires key in keys && forall k :: k in keys ==> IsKey(k)
    ensures Simultaneous(Pattern(key), keys, values) == ValueOf(values, key)
  {
    hide IsKey;
    var found := Leading(Pattern(key), keys);
    if found[0] != key {
      OneHole(found[0], key, Pattern(key));
    }
    assert Pattern(key)[|Pattern(key)|..] == "";
  }

  ghost predicate AreKeys(keys: seq<string>) {
    (forall k :: k in keys ==> IsKey(k)) && forall i, j :: 0 <= i < j < |keys| ==> keys[i] != keys[j]
  }

  lemma PlaceholdersQualify()
    ensures AreKeys(PLACEHOLDERS)
  {
    forall k | k in PLACEHOLDERS ensures IsKey(k) {
      PlaceholdersAreKeys(k);
    }
    PlaceholdersAreDistinct();
  }

  /** A placeholder whose value is a later one comes out as what the passes after that one make of its value. */
  lemma TwoHops(keys: seq<string>, i: nat, j: nat, values: Values)
    requires AreKeys(keys) && i < j < |keys| && ValueOf(values, keys[i]) == Pattern(keys[j])
    ensures Sequential(Pattern(keys[i]), keys, values) == Sequential(ValueOf(values, keys[j]), keys[j + 1..], values)
  {
    hide IsKey, Sequential;
    UpTo(keys[i], keys, i, values);
    UpTo(keys[j], keys[i + 1..], j - i - 1, values);
    assert keys[i + 1..][j - i..] == keys[j + 1..];
  }

  /** Without the condition the readings differ: a value that mentions a later placeholder is itself rewritten. */
  lemma ValuesAreRescanned(i: nat, j: nat, value: string)
    requires i < j < |PLACEHOLDERS| && '{' !in value
    ensures var values: Values := map[PLACEHOLDERS[i] := Pattern(PLACEHOLDERS[j]), PLACEHOLDERS[j] := value];
            && Sequential(Pattern(PLACEHOLDERS[i]), PLACEHOLDERS, values) == value
            && Simultaneous(Pattern(PLACEHOLDERS[i]), PLACEHOLDERS, values) == Pattern(PLACEHOLDERS[j])
            && value != Pattern(PLACEHOLDERS[j])
  {
    PlaceholdersQualify();
    Rescanned(PLACEHOLDERS, i, j, value);
  }

  lemma Rescanned(keys: seq<string>, i: nat, j: nat, value: string)
    requires AreKeys(keys) && i < j < |keys| && '{' !in value
    ensures var values: Values := map[keys[i] := Pattern(keys[j]), keys[j] := value];
            && Sequential(Pattern(keys[i]), keys, values) == value
            && Simultaneous(Pattern(keys[i]), keys, values) == Pattern(keys[j])
            && value != Pattern(keys[j])
  {
    hide IsKey, Sequential;
    var values: Values := map[keys[i] := Pattern(keys[j]), keys[j] := value];
    TwoHops(keys, i, j, values);
    BracelessStays(value, keys[j + 1..], values);
    assert Pattern(keys[j])[0] == '{';
    AloneSimultaneously(keys[i], keys, values);
  }

  /** A placeholder alone becomes its value, and nothing if it has none. */
  lemma PlaceholderIsFilled(i: nat, values: Values)
    requires i < |PLACEHOLDERS|
    requires PLACEHOLDERS[i] in values ==> '{' !in values[PLACEHOLDERS[i]]
    ensures Sequential(Pattern(PLACEHOLDERS[i]), PLACEHOLDERS, values) ==
            if PLACEHOLDERS[i] in values then values[PLACEHOLDERS[i]] else ""
  {
    PlaceholdersQualify();
    FilledAlone(PLACEHOLDERS, i, values);
  }

  lemma FilledAlone(keys: seq<string>, i: nat, values: Values)
    requires AreKeys(keys) && i < |keys| && '{' !in ValueOf(values, keys[i])
    ensures Sequential(Pattern(keys[i]), keys, values) == ValueOf(values, keys[i])
  {
    hide IsKey, Sequential;
    UpTo(keys[i], keys, i, values);
    BracelessStays(ValueOf(values, keys[i]), keys[i + 1..], values);
  }

  /** The other way round nothing happens: a value of a later placeholder that mentions an earlier one stays. */
  lemma EarlierMentionsStay(i: nat, j: nat, values: Values)
    requires i < j < |PLACEHOLDERS| && ValueOf(values, PLACEHOLDERS[j]) == Pattern(PLACEHOLDERS[i])
    ensures Sequential(Pattern(PLACEHOLDERS[j]), PLACEHOLDERS, values) == Pattern(PLACEHOLDERS[i])
  {
    PlaceholdersQualify();
    MentionStays(PLACEHOLDERS, i, j, values);
  }

  lemma MentionStays(keys: seq<string>, i: nat, j: nat, values: Values)
    requires AreKeys(keys) && i < j < |keys| && ValueOf(values, keys[j]) == Pattern(keys[i])
    ensures Sequential(Pattern(keys[j]), keys, values) == Pattern(keys[i])
  {
    hide IsKey, Sequential, Pattern;
    UpTo(keys[j], keys, j, values);
    PlaceholderStays(keys[i], keys[j + 1..], values);
  }

  /** By name: an objective that mentions the constraints shows them, constraints that mention the objective do not. */
  lemma ObjectiveMentionsConstraints(value: string)
    requires '{' !in value
    ensures Sequential("{objective}", PLACEHOLDERS, map["objective" := "{constraints}", "constraints" := value])
            == value
    ensures Sequential("{constraints}", PLACEHOLDERS, map["constraints" := "{objective}", "objective" := value])
            == "{objective}"
  {
    assert PLACEHOLDERS[2] == "objective" && PLACEHOLDERS[5] == "constraints";
    assert Pattern("objective") == "{objective}" && Pattern("constraints") == "{constraints}";
    ValuesAreRescanned(2, 5, value);
    EarlierMentionsStay(2, 5, map["constraints" := "{objective}", "objective" := value]);
  }

  /** With braces in the values the readings may agree although a value was rewritten: a later one restores it. */
  lemma CoincidencesExist(i: nat, j: nat, k: nat)
    requires i < j < k < |PLACEHOLDERS|
    ensures var keys := PLACEHOLDERS;
            var values: Values :=
              map[keys[i] := Pattern(keys[j]), keys[j] := Pattern(keys[k]), keys[k] := Pattern(keys[j])];
            && Sequential(Pattern(keys[i]), keys[..j + 1], values) == Pattern(keys[k])
            && Sequential(Pattern(keys[i]), keys, values) == Pattern(keys[j])
            && Simultaneous(Pattern(keys[i]), keys, values) == Pattern(keys[j])
  {
    PlaceholdersQualify();
    var keys := PLACEHOLDERS;
    Restored(keys, i, j, k,
             map[keys[i] := Pattern(keys[j]), keys[j] := Pattern(keys[k]), keys[k] := Pattern(keys[j])]);
  }

  lemma Restored(keys: seq<string>, i: nat, j: nat, k: nat, values: Values)
    requires AreKeys(keys) && i < j < k < |keys| && ValueOf(values, keys[i]) == Pattern(keys[j])
    requires ValueOf(values, keys[j]) == Pattern(keys[k]) && ValueOf(values, keys[k]) == Pattern(keys[j])
    ensures Sequential(Pattern(keys[i]), keys[..j + 1], values) == Pattern(keys[k])
    ensures Sequential(Pattern(keys[i]), keys, values) == Pattern(keys[j])
    ensures Simultaneous(Pattern(keys[i]), keys, values) == Pattern(keys[j])
  {
    hide IsKey, Sequential, Pattern;
    TwoHops(keys, i, j, values);
    UpTo(keys[k], keys[j + 1..], k - j - 1, values);
    assert keys[j + 1..][k - j..] == keys[k + 1..];
    PlaceholderStays(keys[j], keys[k + 1..], values);
    TwoHops(keys[..j + 1], i, j, values);
    assert keys[..j + 1][j + 1..] == [];
    NoPasses(Pattern(keys[k]), values);
    AloneSimultaneously(keys[i], keys, values);
  }

  lemma NoPasses(text: string, values: Values)
    ensures Sequential(text, [], values) == text
  {
  }
}
