/** Redaction of connector configuration: what may be published of an arbitrary JSON tree. */
module Redaction {
  import opened Ascii

  // `Scalar` stands for every non-string scalar: numbers, booleans and null.
  datatype Json = Str(s: string) | Scalar(n: int) | Dict(fields: seq<Field>) | List(items: seq<Json>)
  datatype Field = Field(key: string, value: Json)

  const REDACTED := "[redacted]"
  const REFERENCE_PREFIX := "secret://"
  const HEADERS := "headers"

  const SENSITIVE_WORDS: seq<string> := [
    "secret", "token", "password", "passwd", "credential", "apikey", "api_key", "api-key",
    "privatekey", "private_key", "private-key", "authorization", "auth", "bearer", "signature",
    "salt", "session"]

  const STRUCTURAL_KEYS: set<string> := {
    "base_url", "target_url", "health_url", "allowed_hosts", "allowed_schemes", "allowed_content_types",
    "service", "operation", "method", "health_method", "path", "kind", "max_redirects",
    "max_response_bytes", "connect_timeout", "read_timeout", "timeout_seconds", "idempotency_header",
    "signing_secret_ref"}

  predicate OccursAt(s: string, word: string, i: nat) {
    i + |word| <= |s| && s[i..i + |word|] == word
  }

  predicate Contains(s: string, word: string) {
    exists i | 0 <= i <= |s| :: OccursAt(s, word, i)
  }

  predicate Sensitive(key: string) {
    exists w | w in SENSITIVE_WORDS :: Contains(Lower(key), w)
  }

  predicate Structural(key: string) { Lower(key) in STRUCTURAL_KEYS }

  predicate IsReference(v: Json) { v.Str? && REFERENCE_PREFIX <= v.s }

  function RedactValue(key: string, v: Json, parentSensitive: bool): Json {
    if IsReference(v) then v
    else if parentSensitive || Sensitive(key) then Str(REDACTED)
    else if !v.Str? || Structural(key) then v
    else Str(REDACTED)
  }

  function RedactHeaders(fields: seq<Field>): seq<Field> {
    seq(|fields|, i requires 0 <= i < |fields| =>
      Field(fields[i].key, if IsReference(fields[i].value) then fields[i].value else Str(REDACTED)))
  }

  function RedactAny(key: string, v: Json, parentSensitive: bool): Json
    decreases v, 1
  {
    var sensitive := parentSensitive || Sensitive(key);
    match v
    case Dict(fields) => if Lower(key) == HEADERS then Dict(RedactHeaders(fields))
        else Dict(RedactConfig(fields, sensitive))
    case List(items) => List(seq(|items|, i requires 0 <= i < |items| => RedactAny(key, items[i], sensitive)))
    case _ => RedactValue(key, v, sensitive)
  }

  function RedactConfig(fields: seq<Field>, parentSensitive: bool): seq<Field>
    decreases fields, 0
  {
    seq(|fields|, i requires 0 <= i < |fields| =>
      Field(fields[i].key, RedactAny(fields[i].key, fields[i].value, parentSensitive)))
  }

  // ---------------------------------------------------------------- letter case

  /** The letter case of a key never changes what is published under it, on any tree. */
  lemma {:induction false} KeyCaseIsIrrelevant(key: string, other: string, v: Json, parentSensitive: bool)
    requires SameSpelling(key, other)
    ensures RedactAny(key, v, parentSensitive) == RedactAny(other, v, parentSensitive)
    decreases v
  {
    LowerIff(key, other);
    if v.List? {
      var sensitive := parentSensitive || Sensitive(key);
      forall i | 0 <= i < |v.items|
        ensures RedactAny(key, v.items[i], sensitive) == RedactAny(other, v.items[i], sensitive)
      {
        KeyCaseIsIrrelevant(key, other, v.items[i], sensitive);
      }
    }
  }

  predicate Mentions(key: string, word: string) { Contains(Lower(key), word) }

  predicate MentionsAny(key: string) {
    || Mentions(key, "secret") || Mentions(key, "token") || Mentions(key, "password") || Mentions(key, "passwd")
    || Mentions(key, "credential") || Mentions(key, "apikey") || Mentions(key, "api_key") || Mentions(key, "api-key")
    || Mentions(key, "privatekey") || Mentions(key, "private_key") || Mentions(key, "private-key")
    || Mentions(key, "auth") || Mentions(key, "bearer") || Mentions(key, "signature") || Mentions(key, "salt")
    || Mentions(key, "session")
  }

  lemma LongerWord(s: string, word: string, longer: string)
    requires word <= longer && Contains(s, longer)
    ensures Contains(s, word)
  {
    var i :| 0 <= i <= |s| && OccursAt(s, longer, i);
    assert s[i..i + |word|] == s[i..i + |longer|][..|word|];
    assert OccursAt(s, word, i);
  }

  lemma WordMentioned(key: string, i: nat)
    requires i < |SENSITIVE_WORDS| && Contains(Lower(key), SENSITIVE_WORDS[i])
    ensures MentionsAny(key)
  {
    if i == 11 {
      assert "auth" <= SENSITIVE_WORDS[11];
      LongerWord(Lower(key), "auth", SENSITIVE_WORDS[11]);
    }
  }

  lemma MentionedWord(key: string) returns (i: nat)
    requires MentionsAny(key)
    ensures i < |SENSITIVE_WORDS| && Contains(Lower(key), SENSITIVE_WORDS[i])
  {
    i := if Mentions(key, "secret") then 0 else if Mentions(key, "token") then 1
         else if Mentions(key, "password") then 2 else if Mentions(key, "passwd") then 3
         else if Mentions(key, "credential") then 4 else if Mentions(key, "apikey") then 5
         else if Mentions(key, "api_key") then 6 else if Mentions(key, "api-key") then 7
         else if Mentions(key, "privatekey") then 8 else if Mentions(key, "private_key") then 9
         else if Mentions(key, "private-key") then 10 else if Mentions(key, "auth") then 12
         else if Mentions(key, "bearer") then 13 else if Mentions(key, "signature") then 14
         else if Mentions(key, "salt") then 15 else 16;
  }

  /** A key is sensitive exactly when one of these words occurs in it, in any letter case. */
  lemma SensitiveIff(key: string)
    ensures Sensitive(key) <==> MentionsAny(key)
  {
    if Sensitive(key) {
      var w :| w in SENSITIVE_WORDS && Contains(Lower(key), w);
      var i :| 0 <= i < |SENSITIVE_WORDS| && SENSITIVE_WORDS[i] == w;
      WordMentioned(key, i);
    }
    if MentionsAny(key) {
      var i := MentionedWord(key);
      assert SENSITIVE_WORDS[i] in SENSITIVE_WORDS;
    }
  }

  predicate IsSettingName(key: string) {
    var k := Lower(key);
    || k == "base_url" || k == "target_url" || k == "health_url"
    || k == "allowed_hosts" || k == "allowed_schemes" || k == "allowed_content_types"
    || k == "service" || k == "operation" || k == "method" || k == "health_method" || k == "path" || k == "kind"
    || k == "max_redirects" || k == "max_response_bytes"
    || k == "connect_timeout" || k == "read_timeout" || k == "timeout_seconds" || k == "idempotency_header"
    || k == "signing_secret_ref"
  }

  /** A string is shown under a key exactly when it begins with `secret://`, or the key is a setting's name
      and mentions none of the words, or it is the marker itself. */
  lemma StringShownIff(key: string, s: string)
    ensures RedactAny(key, Str(s), false) == Str(s) <==>
            || (|s| >= 9 && s[..9] == "secret://")
            || (IsSettingName(key) && !MentionsAny(key))
            || s == "[redacted]"
  {
    SensitiveIff(key);
    assert |REFERENCE_PREFIX| == 9;
    assert IsReference(Str(s)) <==> |s| >= 9 && s[..9] == "secret://";
  }

  // ---------------------------------------------------------------- what is public

  /** The subtree reached by taking the given members and elements in turn. */
  predicate HasPath(v: Json, path: seq<nat>)
    decreases |path|
  {
    path == []
    || (v.Dict? && path[0] < |v.fields| && HasPath(v.fields[path[0]].value, path[1..]))
    || (v.List? && path[0] < |v.items| && HasPath(v.items[path[0]], path[1..]))
  }

  function At(v: Json, path: seq<nat>): Json
    requires HasPath(v, path)
    decreases |path|
  {
    if path == [] then v
    else if v.Dict? then At(v.fields[path[0]].value, path[1..])
    else At(v.items[path[0]], path[1..])
  }

  function SetAt(v: Json, path: seq<nat>, leaf: Json): Json
    requires HasPath(v, path)
    decreases |path|
  {
    if path == [] then leaf
    else if v.Dict? then
      var f := v.fields[path[0]];
      Dict(v.fields[path[0] := Field(f.key, SetAt(f.value, path[1..], leaf))])
    else List(v.items[path[0] := SetAt(v.items[path[0]], path[1..], leaf)])
  }

  /** A leaf at this path is published: neither a sensitive key nor a headers object lies on the way to
      it, and a string sits under a structural key. */
  predicate Shown(key: string, v: Json, path: seq<nat>)
    requires HasPath(v, path)
    decreases |path|
  {
    if path == [] then !Sensitive(key) && (v.Scalar? || Structural(key))
    else if v.Dict? then
      !Sensitive(key) && Lower(key) != HEADERS && Shown(v.fields[path[0]].key, v.fields[path[0]].value, path[1..])
    else Shown(key, v.items[path[0]], path[1..])
  }

  predicate ShownIn(config: seq<Field>, path: seq<nat>)
    requires HasPath(Dict(config), path)
  {
    path != [] && Shown(config[path[0]].key, config[path[0]].value, path[1..])
  }

  predicate IsLeaf(v: Json) { v.Str? || v.Scalar? }

  ghost predicate Safe(key: string, v: Json, parentSensitive: bool, path: seq<nat>, leaf: Json) {
    || leaf == Str(REDACTED)
    || IsReference(leaf)
    || (!parentSensitive && HasPath(v, path) && At(v, path) == leaf && Shown(key, v, path))
  }

  lemma {:induction false} OnlyPublicLeavesIn(key: string, v: Json, parentSensitive: bool, path: seq<nat>, leaf: Json)
    requires HasPath(RedactAny(key, v, parentSensitive), path) && At(RedactAny(key, v, parentSensitive), path) == leaf
    requires IsLeaf(leaf)
    ensures Safe(key, v, parentSensitive, path, leaf)
    decreases |path|
  {
    var sensitive := parentSensitive || Sensitive(key);
    match v
    case Dict(fields) =>
      if Lower(key) != HEADERS {
        OnlyPublicLeavesIn(fields[path[0]].key, fields[path[0]].value, sensitive, path[1..], leaf);
      } else {
        assert HasPath(RedactHeaders(fields)[path[0]].value, path[1..]);
      }
    case List(items) =>
      OnlyPublicLeavesIn(key, items[path[0]], sensitive, path[1..], leaf);
      ShownNeedsInsensitive(key, items[path[0]], path[1..]);
    case _ =>
  }

  lemma {:induction false} ShownNeedsInsensitive(key: string, v: Json, path: seq<nat>)
    ensures HasPath(v, path) && Shown(key, v, path) ==> !Sensitive(key)
    decreases |path|
  {
    if path != [] && HasPath(v, path) && v.List? {
      ShownNeedsInsensitive(key, v.items[path[0]], path[1..]);
    }
  }

  /** Every leaf of a redacted configuration, string or not, is the marker, a secret reference, or the
      original value of a published position. */
  lemma OnlyPublicLeaves(config: seq<Field>, path: seq<nat>, leaf: Json)
    requires var out := Dict(RedactConfig(config, false)); HasPath(out, path) && At(out, path) == leaf && IsLeaf(leaf)
    ensures leaf == Str(REDACTED) || IsReference(leaf)
            || (HasPath(Dict(config), path) && At(Dict(config), path) == leaf && ShownIn(config, path))
  {
    OnlyPublicLeavesIn(config[path[0]].key, config[path[0]].value, false, path[1..], leaf);
  }

  // ---------------------------------------------------------------- non-interference

  lemma {:induction false} ChangeInside(key: string, v: Json, parentSensitive: bool, path: seq<nat>, t: string)
    requires HasPath(v, path) && At(v, path).Str? && At(v, path) != Str(t)
    requires !IsReference(At(v, path)) && !IsReference(Str(t))
    ensures RedactAny(key, SetAt(v, path, Str(t)), parentSensitive) == RedactAny(key, v, parentSensitive)
            <==> parentSensitive || !Shown(key, v, path)
    decreases |path|
  {
    var sensitive := parentSensitive || Sensitive(key);
    var v' := SetAt(v, path, Str(t));
    if path != [] {
      var i := path[0];
      if v.Dict? {
        var f, f' := v.fields[i], v'.fields[i];
        if Lower(key) == HEADERS {
          NotAReference(f.value, path[1..], t);
          assert f'.value == SetAt(f.value, path[1..], Str(t));
          assert RedactHeaders(v'.fields) == RedactHeaders(v.fields);
        } else {
          ChangeInside(f.key, f.value, sensitive, path[1..], t);
          OneFieldDiffers(v.fields, v'.fields, sensitive, i);
        }
      } else {
        ChangeInside(key, v.items[i], sensitive, path[1..], t);
        OneItemDiffers(key, v.items, v'.items, parentSensitive, i);
        ShownNeedsInsensitive(key, v.items[i], path[1..]);
      }
    }
  }

  lemma NotAReference(v: Json, path: seq<nat>, t: string)
    requires HasPath(v, path) && !IsReference(At(v, path)) && !IsReference(Str(t))
    ensures !IsReference(v) && !IsReference(SetAt(v, path, Str(t)))
  {
  }

  lemma OneFieldDiffers(a: seq<Field>, b: seq<Field>, sensitive: bool, i: nat)
    requires i < |a| == |b| && b == a[i := b[i]] && a[i].key == b[i].key
    ensures RedactConfig(a, sensitive) == RedactConfig(b, sensitive)
            <==> RedactAny(a[i].key, a[i].value, sensitive) == RedactAny(a[i].key, b[i].value, sensitive)
  {
    var x, y := RedactConfig(a, sensitive), RedactConfig(b, sensitive);
    assert forall j | 0 <= j < |a| && j != i :: x[j] == y[j];
    assert x[i].value == RedactAny(a[i].key, a[i].value, sensitive) && y[i].value
        == RedactAny(a[i].key, b[i].value, sensitive);
    assert x[i] == y[i] ==> x == y;
  }

  lemma OneItemDiffers(key: string, a: seq<Json>, b: seq<Json>, parentSensitive: bool, i: nat)
    requires i < |a| == |b| && b == a[i := b[i]]
    ensures var sensitive := parentSensitive || Sensitive(key);
            RedactAny(key, List(a), parentSensitive) == RedactAny(key, List(b), parentSensitive)
            <==> RedactAny(key, a[i], sensitive) == RedactAny(key, b[i], sensitive)
  {
    var sensitive := parentSensitive || Sensitive(key);
    var x, y := RedactAny(key, List(a), parentSensitive).items, RedactAny(key, List(b), parentSensitive).items;
    assert forall j | 0 <= j < |a| && j != i :: x[j] == y[j];
    assert x[i] == RedactAny(key, a[i], sensitive) && y[i] == RedactAny(key, b[i], sensitive);
    assert x[i] == y[i] ==> x == y;
  }

  /** Replacing a string by a different one changes what is published if and only if the position is
      published. A credential anywhere else leaves no trace, not even of its length. */
  lemma ChangeIsVisibleIff(config: seq<Field>, path: seq<nat>, t: string)
    requires path != [] && HasPath(Dict(config), path) && At(Dict(config), path).Str?
          && At(Dict(config), path) != Str(t)
    requires !IsReference(At(Dict(config), path)) && !IsReference(Str(t))
    ensures RedactConfig(SetAt(Dict(config), path, Str(t)).fields, false) != RedactConfig(config, false)
            <==> ShownIn(config, path)
  {
    var f := config[path[0]];
    ChangeInside(f.key, f.value, false, path[1..], t);
    OneFieldDiffers(config, SetAt(Dict(config), path, Str(t)).fields, false, path[0]);
  }

  /** `a` and `b` agree on everything that is public of them, under this key: the same shape and keys;
      within a headers object, the same references at the same names; and at a leaf, the same reference,
      or anything at all where a sensitive key lies above, or else the same value, two literal strings
      under a key that is not structural counting as the same. */
  predicate Agree(key: string, a: Json, b: Json, parentSensitive: bool)
    decreases a, 1
  {
    var sensitive := parentSensitive || Sensitive(key);
    match (a, b)
    case (Dict(f), Dict(g)) => if Lower(key) == HEADERS then AgreeHeaders(f, g) else AgreeAll(f, g, sensitive)
    case (List(x), List(y)) => |x| == |y| && forall i | 0 <= i < |x| :: Agree(key, x[i], y[i], sensitive)
    case _ => IsLeaf(a) && IsLeaf(b) && AgreeLeaves(key, a, b, sensitive)
  }

  predicate AgreeAll(a: seq<Field>, b: seq<Field>, parentSensitive: bool)
    decreases a, 0
  {
    |a| == |b|
    && forall i | 0 <= i < |a| :: a[i].key == b[i].key && Agree(a[i].key, a[i].value, b[i].value, parentSensitive)
  }

  predicate AgreeHeaders(a: seq<Field>, b: seq<Field>) {
    |a| == |b|
    && forall i | 0 <= i < |a| ::
         a[i].key == b[i].key && (IsReference(a[i].value) || IsReference(b[i].value) ==> a[i].value == b[i].value)
  }

  predicate AgreeLeaves(key: string, a: Json, b: Json, sensitive: bool) {
    if IsReference(a) || IsReference(b) then a == b
    else sensitive || a == b || (a.Str? && b.Str? && !Structural(key))
  }

  lemma HeadersAgreeIff(a: seq<Field>, b: seq<Field>)
    ensures RedactHeaders(a) == RedactHeaders(b) <==> AgreeHeaders(a, b)
  {
    var x, y := RedactHeaders(a), RedactHeaders(b);
    if x == y {
      forall i | 0 <= i < |a|
        ensures a[i].key == b[i].key
              && (IsReference(a[i].value) || IsReference(b[i].value) ==> a[i].value == b[i].value)
      {
        assert x[i] == y[i];
        assert !IsReference(Str(REDACTED)) by { assert REDACTED[0] != REFERENCE_PREFIX[0]; }
      }
    }
  }

  lemma LeavesAgreeIff(key: string, a: Json, b: Json, sensitive: bool)
    requires IsLeaf(a) && IsLeaf(b) && (Sensitive(key) ==> sensitive)
    ensures RedactValue(key, a, sensitive) == RedactValue(key, b, sensitive) <==> AgreeLeaves(key, a, b, sensitive)
  {
    assert !IsReference(Str(REDACTED)) by { assert REDACTED[0] != REFERENCE_PREFIX[0]; }
  }

  lemma {:induction false} AnyAgreeIff(key: string, a: Json, b: Json, parentSensitive: bool)
    ensures RedactAny(key, a, parentSensitive) == RedactAny(key, b, parentSensitive)
          <==> Agree(key, a, b, parentSensitive)
    decreases a, 1
  {
    var sensitive := parentSensitive || Sensitive(key);
    match (a, b)
    case (Dict(f), Dict(g)) =>
      HeadersAgreeIff(f, g);
      PublishedAlikeIff(f, g, sensitive);
    case (List(x), List(y)) =>
      var rx, ry := RedactAny(key, a, parentSensitive).items, RedactAny(key, b, parentSensitive).items;
      forall i | 0 <= i < |x| && |x| == |y|
        ensures rx[i] == ry[i] <==> Agree(key, x[i], y[i], sensitive)
      {
        AnyAgreeIff(key, x[i], y[i], sensitive);
      }
      assert rx == ry <==> |x| == |y| && forall i | 0 <= i < |x| :: rx[i] == ry[i];
    case _ =>
      if IsLeaf(a) && IsLeaf(b) {
        LeavesAgreeIff(key, a, b, sensitive);
      }
  }

  /** Non-interference: two configurations are published alike if and only if they agree on the public
      view. Whatever value of whatever kind a masked position holds leaves no trace, and every
      difference in the public view shows. */
  lemma {:induction false} PublishedAlikeIff(a: seq<Field>, b: seq<Field>, parentSensitive: bool)
    ensures RedactConfig(a, parentSensitive) == RedactConfig(b, parentSensitive) <==> AgreeAll(a, b, parentSensitive)
    decreases a, 0
  {
    var x, y := RedactConfig(a, parentSensitive), RedactConfig(b, parentSensitive);
    forall i | 0 <= i < |a| && |a| == |b|
      ensures x[i] == y[i] <==>
              a[i].key == b[i].key && Agree(a[i].key, a[i].value, b[i].value, parentSensitive)
    {
      AnyAgreeIff(a[i].key, a[i].value, b[i].value, parentSensitive);
    }
    assert x == y <==> |a| == |b| && forall i | 0 <= i < |a| :: x[i] == y[i];
  }

  datatype Edit = Edit(path: seq<nat>, text: string)

  function Edited(config: seq<Field>, edit: Edit): seq<Field>
    requires edit.path != [] && HasPath(Dict(config), edit.path)
  {
    SetAt(Dict(config), edit.path, Str(edit.text)).fields
  }

  /** The edit replaces a literal string at a position that is not published by another literal. */
  predicate Hidden(config: seq<Field>, edit: Edit) {
    && edit.path != [] && HasPath(Dict(config), edit.path) && !ShownIn(config, edit.path)
    && At(Dict(config), edit.path).Str? && !IsReference(At(Dict(config), edit.path)) && !IsReference(Str(edit.text))
  }

  /** `b` is reached from `a` by edits of unpublished positions. */
  predicate AllHidden(a: seq<Field>, edits: seq<Edit>, b: seq<Field>)
    decreases |edits|
  {
    if edits == [] then a == b else Hidden(a, edits[0]) && AllHidden(Edited(a, edits[0]), edits[1..], b)
  }

  /** Two configurations that differ only in unpublished strings are published alike. */
  lemma {:induction false} HiddenStringsLeaveNoTrace(a: seq<Field>, edits: seq<Edit>, b: seq<Field>)
    requires AllHidden(a, edits, b)
    ensures RedactConfig(a, false) == RedactConfig(b, false)
    decreases |edits|
  {
    if edits != [] {
      var path, text := edits[0].path, edits[0].text;
      if At(Dict(a), path) == Str(text) {
        SetSame(Dict(a), path);
      } else {
        ChangeIsVisibleIff(a, path, text);
      }
      HiddenStringsLeaveNoTrace(Edited(a, edits[0]), edits[1..], b);
    }
  }

  lemma {:induction false} SetSame(v: Json, path: seq<nat>)
    requires HasPath(v, path)
    ensures SetAt(v, path, At(v, path)) == v
    decreases |path|
  {
    if path != [] {
      SetSame(if v.Dict? then v.fields[path[0]].value else v.items[path[0]], path[1..]);
    }
  }

  // ---------------------------------------------------------------- idempotence

  lemma {:induction false} RedactAnyTwice(key: string, v: Json, parentSensitive: bool)
    ensures RedactAny(key, RedactAny(key, v, parentSensitive), parentSensitive) == RedactAny(key, v, parentSensitive)
    decreases v, 1
  {
    var sensitive := parentSensitive || Sensitive(key);
    var once := RedactAny(key, v, parentSensitive);
    var twice := RedactAny(key, once, parentSensitive);
    match v
    case Dict(fields) =>
      if Lower(key) == HEADERS {
        assert RedactHeaders(RedactHeaders(fields)) == RedactHeaders(fields);
      } else {
        RedactTwice(fields, sensitive);
      }
    case List(items) =>
      forall i | 0 <= i < |items|
        ensures twice.items[i] == once.items[i]
      {
        RedactAnyTwice(key, items[i], sensitive);
      }
      assert twice.items == once.items;
    case _ =>
      MarkerIsStable(key, v, sensitive);
  }

  lemma MarkerIsStable(key: string, v: Json, sensitive: bool)
    requires v.Str? || v.Scalar?
    ensures RedactAny(key, RedactValue(key, v, sensitive), sensitive) == RedactValue(key, v, sensitive)
  {
    assert REDACTED[0] != REFERENCE_PREFIX[0];
  }

  /** Redacting what was already redacted changes nothing. */
  lemma {:induction false} RedactTwice(fields: seq<Field>, parentSensitive: bool)
    ensures RedactConfig(RedactConfig(fields, parentSensitive), parentSensitive)
          == RedactConfig(fields, parentSensitive)
    decreases fields, 0
  {
    var once := RedactConfig(fields, parentSensitive);
    forall i | 0 <= i < |fields|
      ensures RedactConfig(once, parentSensitive)[i] == once[i]
    {
      RedactAnyTwice(fields[i].key, fields[i].value, parentSensitive);
    }
  }

  /** One entry of the structural allow-list can never take effect: its own name is sensitive, so a
      literal there is redacted and only a reference is shown. */
  lemma SigningSecretRefIsNeverShown(v: Json, path: seq<nat>)
    requires HasPath(v, path)
    ensures Structural("signing_secret_ref") && Sensitive("signing_secret_ref")
    ensures !Shown("signing_secret_ref", v, path)
  {
    var key := "signing_secret_ref";
    assert Lower(key) == key;
    assert OccursAt(Lower(key), SENSITIVE_WORDS[0], 8);
    assert Contains(Lower(key), SENSITIVE_WORDS[0]);
    ShownNeedsInsensitive(key, v, path);
  }
}
