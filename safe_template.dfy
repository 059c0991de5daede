/**
 * Python's `string.Template(content).safe_substitute(mapping)` (PEP 292),
 * the substitution a unit applies to its content.
 *
 * The template is cut, left to right, into tokens: a plain character, or a
 * marker starting at a `$`. After a `$` the first rule that applies wins:
 *   `$$`            an escaped dollar, written as `$`;
 *   `$id`           a named placeholder, `id` the longest identifier there;
 *   `${id}`         a braced placeholder;
 *   anything else   a lone `$`, kept as it is.
 * Identifiers are ASCII `[_A-Za-z][_A-Za-z0-9]*`. A placeholder whose name is
 * a key of the mapping becomes the mapped value; any other is kept verbatim.
 */
module SafeTemplate {

  datatype Token =
    | Literal(c: char)     // any character outside a marker
    | Escaped              // `$$`
    | Named(id: string)    // `$id`
    | Braced(id: string)   // `${id}`
    | Invalid              // a `$` that starts no marker

  predicate IsIdStart(c: char) {
    c == '_' || 'a' <= c <= 'z' || 'A' <= c <= 'Z'
  }

  predicate IsIdChar(c: char) {
    IsIdStart(c) || '0' <= c <= '9'
  }

  predicate IsIdentifier(s: string) {
    |s| >= 1 && IsIdStart(s[0]) && forall i :: 1 <= i < |s| ==> IsIdChar(s[i])
  }

  /** The longest run of identifier characters at the front of s. */
  function IdRun(s: string): (r: string)
    ensures r <= s
    ensures forall i :: 0 <= i < |r| ==> IsIdChar(r[i])
    ensures |r| < |s| ==> !IsIdChar(s[|r|])
    decreases |s|
  {
    if s != [] && IsIdChar(s[0]) then [s[0]] + IdRun(s[1..]) else []
  }

  /** The run of an identifier followed by a non-identifier character is that identifier. */
  lemma {:induction false} IdRunOf(id: string, rest: string)
    requires forall i :: 0 <= i < |id| ==> IsIdChar(id[i])
    requires rest == [] || !IsIdChar(rest[0])
    ensures IdRun(id + rest) == id
    decreases |id|
  {
    if id == [] {
      assert id + rest == rest;
    } else {
      assert (id + rest)[1..] == id[1..] + rest;
      IdRunOf(id[1..], rest);
    }
  }

  /** `{id}` with a well-formed identifier stands at the front of `rest`. */
  predicate BracedAhead(rest: string) {
    |rest| >= 2 && rest[0] == '{' && IsIdStart(rest[1]) &&
    1 + |IdRun(rest[1..])| < |rest| && rest[1 + |IdRun(rest[1..])|] == '}'
  }

  /** The text a token was cut from. */
  function Spelling(t: Token): string {
    match t
    case Literal(c) => [c]
    case Escaped => "$$"
    case Named(id) => "$" + id
    case Braced(id) => "${" + id + "}"
    case Invalid => "$"
  }

  predicate WellFormed(t: Token) {
    match t
    case Literal(c) => c != '$'
    case Named(id) => IsIdentifier(id)
    case Braced(id) => IsIdentifier(id)
    case _ => true
  }

  /** The marker that starts at a `$` followed by `rest`. */
  function Marker(rest: string): (t: Token)
    ensures WellFormed(t) && !t.Literal?
    ensures Spelling(t) <= "$" + rest
    ensures t.Escaped? <==> rest != [] && rest[0] == '$'
    ensures t.Named? <==> rest != [] && IsIdStart(rest[0])
    ensures t.Named? ==> |t.id| == |rest| || !IsIdChar(rest[|t.id|])
    ensures t.Braced? <==> BracedAhead(rest)
    ensures t.Invalid? <==> !(rest != [] && (rest[0] == '$' || IsIdStart(rest[0]))) && !BracedAhead(rest)
  {
    if rest != [] && rest[0] == '$' then
      assert ("$" + rest)[..2] == "$$";
      Escaped
    else if rest != [] && IsIdStart(rest[0]) then
      var id := IdRun(rest);
      assert ("$" + rest)[..1 + |id|] == "$" + id by {
        assert rest[..|id|] == id;
      }
      Named(id)
    else if BracedAhead(rest) then
      var id := IdRun(rest[1..]);
      assert ("$" + rest)[..3 + |id|] == "${" + id + "}" by {
        assert rest[1..][..|id|] == id;
        assert rest[..2 + |id|] == "{" + id + "}";
      }
      Braced(id)
    else
      Invalid
  }

  /** The scanner: the tokens of a template, left to right. */
  function Scan(s: string): (ts: seq<Token>)
    ensures forall i :: 0 <= i < |ts| ==> WellFormed(ts[i])
    decreases |s|
  {
    if s == [] then []
    else if s[0] != '$' then [Literal(s[0])] + Scan(s[1..])
    else
      var t := Marker(s[1..]);
      assert s == "$" + s[1..];
      [t] + Scan(s[|Spelling(t)|..])
  }

  function SpellAll(ts: seq<Token>): string
    decreases |ts|
  {
    if ts == [] then "" else Spelling(ts[0]) + SpellAll(ts[1..])
  }

  /** What one token becomes under safe substitution. */
  function Emit(t: Token, mapping: map<string, string>): string {
    match t
    case Literal(c) => [c]
    case Escaped => "$"
    case Named(id) => if id in mapping then mapping[id] else Spelling(t)
    case Braced(id) => if id in mapping then mapping[id] else Spelling(t)
    case Invalid => "$"
  }

  function EmitAll(ts: seq<Token>, mapping: map<string, string>): string
    decreases |ts|
  {
    if ts == [] then "" else Emit(ts[0], mapping) + EmitAll(ts[1..], mapping)
  }

  /** `Template(s).safe_substitute(mapping)`. */
  function SafeSubstitute(s: string, mapping: map<string, string>): string {
    EmitAll(Scan(s), mapping)
  }

  /** The placeholder names the scanner finds in a token list. */
  function Names(ts: seq<Token>): set<string>
    decreases |ts|
  {
    if ts == [] then {}
    else (if ts[0].Named? || ts[0].Braced? then {ts[0].id} else {}) + Names(ts[1..])
  }

  /** The placeholder names of a template. */
  function Placeholders(s: string): set<string> {
    Names(Scan(s))
  }

  // ---------------------------------------------------------------------
  // The scanner loses and invents nothing.

  /** The tokens spell out the template exactly. */
  lemma {:induction false} ScanSpellsTemplate(s: string)
    ensures SpellAll(Scan(s)) == s
    decreases |s|
  {
    if s != [] {
      if s[0] != '$' {
        ScanSpellsTemplate(s[1..]);
        assert s == [s[0]] + s[1..];
      } else {
        var t := Marker(s[1..]);
        assert s == "$" + s[1..];
        assert Spelling(t)[0] == '$';
        ScanSpellsTemplate(s[|Spelling(t)|..]);
        assert s == Spelling(t) + s[|Spelling(t)|..];
      }
    }
  }

  // ---------------------------------------------------------------------
  // The PEP 292 rules, one per kind of token, as equations on the template.

  /** A character other than `$` is copied; `{` and `}` included. */
  lemma LiteralCopied(c: char, rest: string, mapping: map<string, string>)
    requires c != '$'
    ensures SafeSubstitute([c] + rest, mapping) == [c] + SafeSubstitute(rest, mapping)
  {
    assert ([c] + rest)[1..] == rest;
  }

  /** `$$` becomes `$`. */
  lemma EscapeCollapsed(rest: string, mapping: map<string, string>)
    ensures SafeSubstitute("$$" + rest, mapping) == "$" + SafeSubstitute(rest, mapping)
  {
    var s := "$$" + rest;
    assert s[1..] == "$" + rest && s[1..][0] == '$';
    assert s[2..] == rest;
  }

  /** `$id` becomes the mapped value when `id` is a key, and stays as it is otherwise. */
  lemma NamedReplaced(id: string, rest: string, mapping: map<string, string>)
    requires IsIdentifier(id)
    requires rest == [] || !IsIdChar(rest[0])
    ensures SafeSubstitute("$" + id + rest, mapping)
         == (if id in mapping then mapping[id] else "$" + id) + SafeSubstitute(rest, mapping)
  {
    var s := "$" + id + rest;
    assert s[1..] == id + rest;
    IdRunOf(id, rest);
    assert Marker(s[1..]) == Named(id);
    assert s[|"$" + id|..] == rest;
  }

  /** `${id}` becomes the mapped value when `id` is a key, and stays as it is otherwise. */
  lemma BracedReplaced(id: string, rest: string, mapping: map<string, string>)
    requires IsIdentifier(id)
    ensures SafeSubstitute("${" + id + "}" + rest, mapping)
         == (if id in mapping then mapping[id] else "${" + id + "}") + SafeSubstitute(rest, mapping)
  {
    var s := "${" + id + "}" + rest;
    var after := s[1..];
    assert after == "{" + id + "}" + rest;
    assert after[1..] == id + ("}" + rest);
    IdRunOf(id, "}" + rest);
    assert BracedAhead(after);
    assert Marker(after) == Braced(id);
    assert s[|"${" + id + "}"|..] == rest;
  }

  /** A `$` that starts no marker is kept, and scanning resumes right after it. */
  lemma InvalidKept(rest: string, mapping: map<string, string>)
    requires rest == [] || (rest[0] != '$' && !IsIdStart(rest[0]))
    requires !BracedAhead(rest)
    ensures SafeSubstitute("$" + rest, mapping) == "$" + SafeSubstitute(rest, mapping)
  {
    var s := "$" + rest;
    assert s[1..] == rest;
  }

  /** A stretch without `$` is copied as a whole. */
  lemma {:induction false} DollarFreeCopied(text: string, rest: string, mapping: map<string, string>)
    requires '$' !in text
    ensures SafeSubstitute(text + rest, mapping) == text + SafeSubstitute(rest, mapping)
    decreases |text|
  {
    if text == [] {
      assert text + rest == rest;
    } else {
      var c, tail := text[0], text[1..];
      assert text + rest == [c] + (tail + rest);
      assert '$' !in tail;
      LiteralCopied(c, tail + rest, mapping);
      var copied := SafeSubstitute(tail + rest, mapping);
      assert SafeSubstitute(text + rest, mapping) == [c] + copied;
      DollarFreeCopied(tail, rest, mapping);
      assert text == [c] + tail;
    }
  }

  /** Content without `$` is returned unchanged, whatever the mapping. */
  lemma NoDollarUnchanged(s: string, mapping: map<string, string>)
    requires '$' !in s
    ensures SafeSubstitute(s, mapping) == s
  {
    DollarFreeCopied(s, "", mapping);
    assert s + "" == s;
  }

  // ---------------------------------------------------------------------
  // What the mapping can and cannot influence.

  /** Tokens that are neither `$$` nor a placeholder with a key come out as they went in. */
  lemma {:induction false} EmitVerbatim(ts: seq<Token>, mapping: map<string, string>)
    requires forall i :: 0 <= i < |ts| ==> !ts[i].Escaped?
    requires forall id :: id in Names(ts) ==> id !in mapping
    ensures EmitAll(ts, mapping) == SpellAll(ts)
    decreases |ts|
  {
    if ts != [] {
      EmitVerbatim(ts[1..], mapping);
    }
  }

  /** A template without `$$` whose placeholders are all unknown keys is left exactly as written. */
  lemma UnknownPlaceholdersVerbatim(s: string, mapping: map<string, string>)
    requires Escaped !in Scan(s)
    requires forall id :: id in Placeholders(s) ==> id !in mapping
    ensures SafeSubstitute(s, mapping) == s
  {
    var ts := Scan(s);
    forall i | 0 <= i < |ts| ensures !ts[i].Escaped? {
      assert ts[i] in ts;
    }
    EmitVerbatim(ts, mapping);
    ScanSpellsTemplate(s);
  }

  /** Two mappings that agree on the tokens' placeholder names give the same output. */
  lemma {:induction false} EmitAgrees(ts: seq<Token>, m1: map<string, string>, m2: map<string, string>)
    requires forall id :: id in Names(ts) ==> (id in m1 <==> id in m2)
    requires forall id :: id in Names(ts) && id in m1 && id in m2 ==> m1[id] == m2[id]
    ensures EmitAll(ts, m1) == EmitAll(ts, m2)
    decreases |ts|
  {
    if ts != [] {
      EmitAgrees(ts[1..], m1, m2);
    }
  }

  /** Keys that name no placeholder of the template are ignored. */
  lemma ExtraKeysIgnored(s: string, m1: map<string, string>, m2: map<string, string>)
    requires forall id :: id in Placeholders(s) ==> (id in m1 <==> id in m2)
    requires forall id :: id in Placeholders(s) && id in m1 && id in m2 ==> m1[id] == m2[id]
    ensures SafeSubstitute(s, m1) == SafeSubstitute(s, m2)
  {
    EmitAgrees(Scan(s), m1, m2);
  }

  // ---------------------------------------------------------------------
  // One placeholder in `$`-free text, the shape of the unit tests' templates
  // ("Hello $name!", "Hello ${name}!", a JSON object around `$data`).

  /** A `$`-free stretch is copied and the placeholder after it is resolved. */
  lemma NamedAfterText(before: string, id: string, rest: string, mapping: map<string, string>)
    requires '$' !in before
    requires IsIdentifier(id)
    requires rest == [] || !IsIdChar(rest[0])
    ensures SafeSubstitute(before + "$" + id + rest, mapping)
         == before + ((if id in mapping then mapping[id] else "$" + id) + SafeSubstitute(rest, mapping))
  {
    var marker := "$" + id + rest;
    assert before + "$" + id + rest == before + marker;
    DollarFreeCopied(before, marker, mapping);
    NamedReplaced(id, rest, mapping);
  }

  lemma BracedAfterText(before: string, id: string, rest: string, mapping: map<string, string>)
    requires '$' !in before
    requires IsIdentifier(id)
    ensures SafeSubstitute(before + "${" + id + "}" + rest, mapping)
         == before + ((if id in mapping then mapping[id] else "${" + id + "}") + SafeSubstitute(rest, mapping))
  {
    var marker := "${" + id + "}" + rest;
    assert before + "${" + id + "}" + rest == before + marker;
    DollarFreeCopied(before, marker, mapping);
    BracedReplaced(id, rest, mapping);
  }

  /** Only the placeholder changes; the text around it, braces included, is kept. */
  lemma NamedInText(before: string, id: string, after: string, mapping: map<string, string>)
    requires '$' !in before && '$' !in after
    requires IsIdentifier(id)
    requires after == [] || !IsIdChar(after[0])
    ensures SafeSubstitute(before + "$" + id + after, mapping)
         == before + (if id in mapping then mapping[id] else "$" + id) + after
  {
    NamedAfterText(before, id, after, mapping);
    NoDollarUnchanged(after, mapping);
  }

  lemma BracedInText(before: string, id: string, after: string, mapping: map<string, string>)
    requires '$' !in before && '$' !in after
    requires IsIdentifier(id)
    ensures SafeSubstitute(before + "${" + id + "}" + after, mapping)
         == before + (if id in mapping then mapping[id] else "${" + id + "}") + after
  {
    BracedAfterText(before, id, after, mapping);
    NoDollarUnchanged(after, mapping);
  }
}
