/** logdog's redaction of settings: a pass over fixed JSON pointers (section 4 of RFC 6901) and a
    recursive pass over `user-data` members.  Both are proved to be one masking of the tree by
    a test on paths, from which completeness, minimality, commutation and idempotence follow. */
module Redaction {
  import opened Wrappers
  import opened Decimal
  import opened Json

  const REDACTED: Json := String("REDACTED")

  // ------------------------------------------------------------------------------- pointers

  /** `str::split('/')` */
  function Split(s: string): (parts: seq<string>)
    ensures parts != []
  {
    if s == [] then [""]
    else
      var rest := Split(s[1..]);
      if s[0] == '/' then [""] + rest else [[s[0]] + rest[0]] + rest[1..]
  }

  /** `str::replace` of a two-character text by one character. */
  function ReplacePair(s: string, a: char, b: char, with: char): string {
    if |s| < 2 then s
    else if s[0] == a && s[1] == b then [with] + ReplacePair(s[2..], a, b, with)
    else [s[0]] + ReplacePair(s[1..], a, b, with)
  }

  function Unescape(token: string): string {
    ReplacePair(ReplacePair(token, '~', '1', '/'), '~', '0', '~')
  }

  function UnescapeAll(parts: seq<string>): seq<string> {
    if parts == [] then [] else [Unescape(parts[0])] + UnescapeAll(parts[1..])
  }

  /** The reference tokens of a pointer; a non-empty pointer must begin with a slash. */
  function Tokens(pointer: string): Option<seq<string>> {
    if pointer == "" then Some([])
    else if pointer[0] != '/' then None
    else Some(UnescapeAll(Split(pointer[1..])))
  }

  /** Writing a pointer, for comparison: a tilde as ~0, a slash as ~1. */
  function Escape(token: string): string {
    if token == "" then ""
    else (if token[0] == '~' then "~0" else if token[0] == '/' then "~1" else [token[0]]) + Escape(token[1..])
  }

  function EscapeAll(tokens: seq<string>): seq<string> {
    if tokens == [] then [] else [Escape(tokens[0])] + EscapeAll(tokens[1..])
  }

  function PointerOf(tokens: seq<string>): string {
    if tokens == [] then "" else "/" + Escape(tokens[0]) + PointerOf(tokens[1..])
  }

  lemma {:induction false} EscapeHasNoSlash(token: string)
    ensures '/' !in Escape(token)
  {
    if token != "" {
      EscapeHasNoSlash(token[1..]);
    }
  }

  lemma {:induction false} SplitAtSlash(first: string, rest: string)
    requires '/' !in first
    ensures Split(first + "/" + rest) == [first] + Split(rest)
    ensures Split(first) == [first]
  {
    var s := first + "/" + rest;
    if first == "" {
      assert s[0] == '/' && s[1..] == rest;
    } else {
      assert s[0] == first[0] && s[1..] == first[1..] + "/" + rest;
      assert forall c :: c in first[1..] ==> c in first;
      assert first[0] in first;
      SplitAtSlash(first[1..], rest);
      assert [first[0]] + first[1..] == first;
      assert ([first[1..]] + Split(rest))[1..] == Split(rest);
    }
  }

  lemma {:induction false} SplitPointer(tokens: seq<string>)
    requires tokens != []
    ensures PointerOf(tokens) != "" && PointerOf(tokens)[0] == '/'
    ensures Split(PointerOf(tokens)[1..]) == EscapeAll(tokens)
  {
    hide Split, Escape;
    EscapeHasNoSlash(tokens[0]);
    var rest := tokens[1..];
    if rest == [] {
      assert PointerOf(tokens)[1..] == Escape(tokens[0]);
      SplitAtSlash(Escape(tokens[0]), "");
    } else {
      SplitPointer(rest);
      assert PointerOf(rest) == "/" + PointerOf(rest)[1..];
      assert PointerOf(tokens)[1..] == Escape(tokens[0]) + "/" + PointerOf(rest)[1..];
      SplitAtSlash(Escape(tokens[0]), PointerOf(rest)[1..]);
    }
  }

  /** Replacing ~1 in an escaped token leaves the slashes in place and the tildes as ~0. */
  function HalfEscaped(token: string): string {
    if token == "" then ""
    else (if token[0] == '~' then "~0" else [token[0]]) + HalfEscaped(token[1..])
  }

  lemma {:induction false} UnescapeSlashes(token: string)
    ensures ReplacePair(Escape(token), '~', '1', '/') == HalfEscaped(token)
  {
    if token != "" {
      UnescapeSlashes(token[1..]);
      var rest := Escape(token[1..]);
      var s := Escape(token);
      if token[0] == '~' {
        assert s == "~0" + rest && s[1..] == "0" + rest && s[1..][1..] == rest;
        assert rest != "" ==> ("0" + rest)[0] == '0';
      } else if token[0] == '/' {
        assert s == "~1" + rest && s[2..] == rest;
      } else {
        assert s == [token[0]] + rest && s[1..] == rest;
      }
    }
  }

  lemma {:induction false} UnescapeTildes(token: string)
    ensures ReplacePair(HalfEscaped(token), '~', '0', '~') == token
  {
    if token != "" {
      UnescapeTildes(token[1..]);
      var rest := HalfEscaped(token[1..]);
      var s := HalfEscaped(token);
      if token[0] == '~' {
        assert s == "~0" + rest && s[2..] == rest;
      } else {
        assert s == [token[0]] + rest && s[1..] == rest;
      }
      assert [token[0]] + token[1..] == token;
    }
  }

  lemma {:induction false} UnescapeEscape(tokens: seq<string>)
    ensures UnescapeAll(EscapeAll(tokens)) == tokens
  {
    if tokens != [] {
      UnescapeEscape(tokens[1..]);
      UnescapeSlashes(tokens[0]);
      UnescapeTildes(tokens[0]);
      assert EscapeAll(tokens)[1..] == EscapeAll(tokens[1..]);
    }
  }

  /** Every list of tokens survives being written as a pointer and read back. */
  lemma PointerRoundTrip(tokens: seq<string>)
    ensures Tokens(PointerOf(tokens)) == Some(tokens)
  {
    if tokens != [] {
      SplitPointer(tokens);
      UnescapeEscape(tokens);
    }
  }

  /** An array index: digits without a sign or a leading zero. */
  function ParseIndex(token: string): Option<nat> {
    if token == "" || !AllDigits(token) || (token[0] == '0' && |token| != 1) then None
    else Some(DigitsValue(token))
  }

  lemma {:induction false} LeadingDigit(s: string)
    requires s != "" && AllDigits(s) && s[0] != '0'
    ensures DigitsValue(s) > 0
  {
    if |s| == 1 {
      assert s[..0] == "";
    } else {
      LeadingDigit(s[..|s| - 1]);
    }
  }

  /** Digits without a leading zero are how their value is printed. */
  lemma {:induction false} CanonicalShown(s: string)
    requires s != "" && AllDigits(s) && (s[0] == '0' ==> |s| == 1)
    ensures Show(DigitsValue(s)) == s
  {
    var front, last := s[..|s| - 1], DigitValue(s[|s| - 1]);
    assert '0' + last as char == s[|s| - 1];
    assert s == front + [s[|s| - 1]];
    if |s| == 1 {
      assert front == "" && DigitsValue(s) == last;
    } else {
      CanonicalShown(front);
      LeadingDigit(front);
      assert DigitsValue(s) / 10 == DigitsValue(front) && DigitsValue(s) % 10 == last;
    }
  }

  lemma {:induction false} ShownCanonical(i: nat)
    ensures Show(i)[0] == '0' ==> |Show(i)| == 1
    ensures i > 0 ==> Show(i)[0] != '0'
  {
    if i >= 10 {
      ShownCanonical(i / 10);
    }
  }

  /** A token is an index exactly when it is that number printed in decimal, as section 4 of RFC
      6901 has it. */
  lemma IndexIff(token: string, i: nat)
    ensures ParseIndex(token) == Some(i) <==> token == Show(i)
  {
    ShowValue(i);
    ShownCanonical(i);
    if ParseIndex(token).Some? {
      CanonicalShown(token);
    }
  }

  /** A text is a pointer exactly when it is empty or begins with a slash. */
  lemma PointerIff(text: string)
    ensures Tokens(text).Some? <==> text == "" || "/" <= text
  {
  }

  /** The value with the target of a pointer overwritten, if the target exists. */
  function Overwrite(v: Json, tokens: seq<string>): Json
    decreases |tokens|
  {
    if tokens == [] then REDACTED
    else match v
      case Object(members) =>
        if tokens[0] in members then Object(members[tokens[0] := Overwrite(members[tokens[0]], tokens[1..])])
        else v
      case Array(items) =>
        var i := ParseIndex(tokens[0]);
        if i.Some? && i.value < |items| then Array(items[i.value := Overwrite(items[i.value], tokens[1..])])
        else v
      case _ => v
  }

  function OverwriteAll(v: Json, pointers: seq<seq<string>>): Json {
    if pointers == [] then v
    else Overwrite(OverwriteAll(v, pointers[..|pointers| - 1]), pointers[|pointers| - 1])
  }

  /** `strip_user_data` as a function. */
  function Strip(v: Json): Json {
    match v
    case Object(members) =>
      Object(map k | k in members :: if k == "user-data" then REDACTED else Strip(members[k]))
    case Array(items) => Array(seq(|items|, i requires 0 <= i < |items| => Strip(items[i])))
    case _ => v
  }

  // ------------------------------------------------------------------------------- the methods

  method StripUserData(value: Json) returns (result: Json)
    ensures result == Strip(value)
    decreases value
  {
    match value {
      case Object(members) =>
        var done: map<string, Json> := map[];
        var keys := members.Keys;
        while keys != {}
          invariant keys <= members.Keys
          invariant done.Keys == members.Keys - keys
          invariant forall k :: k in done ==> done[k] == if k == "user-data" then REDACTED else Strip(members[k])
          decreases keys
        {
          var key :| key in keys;
          keys := keys - {key};
          if key == "user-data" {
            done := done[key := REDACTED];
          } else {
            var child := StripUserData(members[key]);
            done := done[key := child];
          }
        }
        assert done == Strip(value).members;
        result := Object(done);
      case Array(items) =>
        var done: seq<Json> := [];
        for i := 0 to |items|
          invariant |done| == i
          invariant forall j :: 0 <= j < i ==> done[j] == Strip(items[j])
        {
          var child := StripUserData(items[i]);
          done := done + [child];
        }
        assert done == Strip(value).items;
        result := Array(done);
      case _ =>
        result := value;
    }
  }

  /** The places of the settings logdog hides. */
  const SENSITIVE_SETTINGS: seq<seq<string>> := [
    ["settings", "kubernetes", "bootstrap-token"],
    ["settings", "network", "https-proxy"],
    ["settings", "kubernetes", "server-key"],
    ["settings", "container-registry", "credentials"],
    ["settings", "aws", "config"],
    ["settings", "aws", "credentials"]]

  const SENSITIVE_SETTINGS_PATTERNS: seq<string> := [
    "/settings/kubernetes/bootstrap-token",
    "/settings/network/https-proxy",
    "/settings/kubernetes/server-key",
    "/settings/container-registry/credentials",
    "/settings/aws/config",
    "/settings/aws/credentials"]

  /** Places written as pointers. */
  function Patterns(places: seq<seq<string>>): seq<string> {
    if places == [] then [] else Patterns(places[..|places| - 1]) + [PointerOf(places[|places| - 1])]
  }

  /** The token lists of those patterns that are pointers at all. */
  function Targets(patterns: seq<string>): seq<seq<string>> {
    if patterns == [] then []
    else
      var front := Targets(patterns[..|patterns| - 1]);
      match Tokens(patterns[|patterns| - 1])
      case Some(tokens) => front + [tokens]
      case None => front
  }

  /** Exactly the patterns that are pointers count. */
  lemma {:induction false} TargetsIff(patterns: seq<string>, tokens: seq<string>)
    ensures tokens in Targets(patterns) <==> exists p :: p in patterns && Tokens(p) == Some(tokens)
  {
    if patterns != [] {
      hide Tokens;
      var front, last := patterns[..|patterns| - 1], patterns[|patterns| - 1];
      TargetsIff(front, tokens);
      assert patterns == front + [last];
      if p :| p in patterns && Tokens(p) == Some(tokens) {
        assert p in front || p == last;
      }
      if tokens in Targets(patterns) && tokens !in Targets(front) {
        assert last in patterns && Tokens(last) == Some(tokens);
      }
    }
  }

  lemma {:induction false} PatternsPointThere(places: seq<seq<string>>)
    ensures Targets(Patterns(places)) == places
  {
    hide Tokens, PointerOf;
    if places != [] {
      PatternsPointThere(places[..|places| - 1]);
      PointerRoundTrip(places[|places| - 1]);
      assert Patterns(places)[..|Patterns(places)| - 1] == Patterns(places[..|places| - 1]);
    }
  }

  lemma {:induction false} EscapePlain(token: string)
    requires '~' !in token && '/' !in token
    ensures Escape(token) == token
  {
    if token != [] {
      EscapePlain(token[1..]);
    }
  }

  lemma PlainCons(token: string, tokens: seq<string>)
    requires '~' !in token && '/' !in token
    ensures PointerOf([token] + tokens) == "/" + token + PointerOf(tokens)
  {
    EscapePlain(token);
    assert ([token] + tokens)[1..] == tokens;
  }

  lemma PlainPointer(a: string, b: string, c: string)
    requires Plain(a) && Plain(b) && Plain(c)
    ensures PointerOf([a, b, c]) == "/" + a + "/" + b + "/" + c
  {
    PlainCons(a, [b, c]);
    PlainCons(b, [c]);
    PlainCons(c, []);
    assert PointerOf([]) == "";
    hide *;
    assert [a] + [b, c] == [a, b, c] && [b] + [c] == [b, c] && [c] + [] == [c];
    assert "/" + c + "" == "/" + c;
    assert "/" + a + ("/" + b + ("/" + c)) == "/" + a + "/" + b + "/" + c;
  }

  predicate Plain(token: string) { '~' !in token && '/' !in token }

  /** The pattern of a place two levels below the settings. */
  predicate Spells(pattern: string, b: string, c: string) { pattern == "/settings/" + b + "/" + c }

  lemma PlainPlace(b: string, c: string, pattern: string)
    requires Plain(b) && Plain(c) && Spells(pattern, b, c)
    ensures PointerOf(["settings", b, c]) == pattern
  {
    PlainPointer("settings", b, c);
    hide *;
    assert "/" + "settings" + "/" == "/settings/";
  }

  lemma KubernetesSpelled()
    ensures Spells("/settings/kubernetes/bootstrap-token", "kubernetes", "bootstrap-token")
    ensures Spells("/settings/kubernetes/server-key", "kubernetes", "server-key")
  {
  }

  lemma RegistrySpelled()
    ensures Spells("/settings/container-registry/credentials", "container-registry", "credentials")
  {
    assert "/settings/" + "container-registry" == "/settings/container-registry";
    assert "/settings/container-registry" + "/" + "credentials" == "/settings/container-registry/credentials";
  }

  lemma OthersSpelled()
    ensures Spells("/settings/network/https-proxy", "network", "https-proxy")
    ensures Spells("/settings/aws/config", "aws", "config")
    ensures Spells("/settings/aws/credentials", "aws", "credentials")
  {
  }

  lemma ServicesPlain()
    ensures Plain("kubernetes") && Plain("bootstrap-token") && Plain("network") && Plain("https-proxy")
    ensures Plain("server-key")
  {
  }

  lemma CredentialsPlain()
    ensures Plain("container-registry") && Plain("credentials") && Plain("aws") && Plain("config")
  {
  }

  /** The patterns in the program are those places. */
  lemma PatternsAsWritten()
    ensures Patterns(SENSITIVE_SETTINGS) == SENSITIVE_SETTINGS_PATTERNS
    ensures Targets(SENSITIVE_SETTINGS_PATTERNS) == SENSITIVE_SETTINGS
  {
    hide PointerOf, Targets, Patterns, Spells, Plain;
    ServicesPlain();
    CredentialsPlain();
    KubernetesSpelled();
    RegistrySpelled();
    OthersSpelled();
    PlainPlace("kubernetes", "bootstrap-token", "/settings/kubernetes/bootstrap-token");
    PlainPlace("network", "https-proxy", "/settings/network/https-proxy");
    PlainPlace("kubernetes", "server-key", "/settings/kubernetes/server-key");
    PlainPlace("container-registry", "credentials", "/settings/container-registry/credentials");
    PlainPlace("aws", "config", "/settings/aws/config");
    PlainPlace("aws", "credentials", "/settings/aws/credentials");
    PatternsOf6(SENSITIVE_SETTINGS);
    PatternsPointThere(SENSITIVE_SETTINGS);
  }

  lemma PatternsOf6(places: seq<seq<string>>)
    requires |places| == 6
    ensures Patterns(places) == [PointerOf(places[0]), PointerOf(places[1]), PointerOf(places[2]),
                                 PointerOf(places[3]), PointerOf(places[4]), PointerOf(places[5])]
  {
    hide PointerOf;
    PatternsSnoc(places, 0);
    PatternsSnoc(places, 1);
    PatternsSnoc(places, 2);
    PatternsSnoc(places, 3);
    PatternsSnoc(places, 4);
    PatternsSnoc(places, 5);
    assert places[..6] == places;
  }

  lemma PatternsSnoc(places: seq<seq<string>>, n: nat)
    requires n < |places|
    ensures Patterns(places[..n + 1]) == Patterns(places[..n]) + [PointerOf(places[n])]
  {
    assert places[..n + 1][..n] == places[..n];
  }

  /** The redaction part of `handle_settings_request`. */
  method RedactSettings(settings: Json, patterns: seq<string>) returns (result: Json)
    ensures result == Strip(OverwriteAll(settings, Targets(patterns)))
  {
    result := settings;
    for i := 0 to |patterns|
      invariant result == OverwriteAll(settings, Targets(patterns[..i]))
    {
      assert patterns[..i + 1][..i] == patterns[..i];
      var tokens := Tokens(patterns[i]);
      if tokens.Some? {
        var before := Targets(patterns[..i]);
        assert (before + [tokens.value])[..|before|] == before;
        result := Overwrite(result, tokens.value);
      }
    }
    assert patterns[..|patterns|] == patterns;
    result := StripUserData(result);
  }

  // ------------------------------------------------------------------------------ masking by path

  datatype Step = Key(k: string) | Index(i: nat)
  type Path = seq<Step>
  type Test = Path -> bool

  /** Every node whose path passes the test is replaced, from the root down. */
  function Mask(v: Json, test: Test, here: Path): Json
    decreases v
  {
    if test(here) then REDACTED
    else match v
      case Object(members) => Object(map k | k in members :: Mask(members[k], test, here + [Key(k)]))
      case Array(items) =>
        Array(seq(|items|, i requires 0 <= i < |items| => Mask(items[i], test, here + [Index(i)])))
      case _ => v
  }

  lemma MaskAt(v: Json, test: Test, here: Path)
    requires test(here)
    ensures Mask(v, test, here) == REDACTED
  {
  }

  lemma MaskObject(members: map<string, Json>, test: Test, here: Path)
    requires !test(here)
    ensures var v := Mask(Object(members), test, here);
            && v.Object? && v.members.Keys == members.Keys
            && forall k :: k in members ==> v.members[k] == Mask(members[k], test, here + [Key(k)])
  {
  }

  lemma MaskArray(items: seq<Json>, test: Test, here: Path)
    requires !test(here)
    ensures var v := Mask(Array(items), test, here);
            && v.Array? && |v.items| == |items|
            && forall i :: 0 <= i < |items| ==> v.items[i] == Mask(items[i], test, here + [Index(i)])
  {
  }

  lemma MaskScalar(v: Json, test: Test, here: Path)
    requires !test(here) && !v.Object? && !v.Array?
    ensures Mask(v, test, here) == v
  {
  }

  function Either(a: Test, b: Test): Test { (q: Path) => a(q) || b(q) }

  lemma {:induction false} MaskAgree(v: Json, a: Test, b: Test, here: Path)
    requires forall q: Path :: a(q) == b(q)
    ensures Mask(v, a, here) == Mask(v, b, here)
    decreases v
  {
    match v {
      case Object(members) =>
        forall k | k in members ensures Mask(members[k], a, here + [Key(k)]) == Mask(members[k], b, here + [Key(k)]) {
          MaskAgree(members[k], a, b, here + [Key(k)]);
        }
      case Array(items) =>
        forall i | 0 <= i < |items| ensures Mask(items[i], a, here + [Index(i)]) == Mask(items[i], b, here + [Index(i)]) {
          MaskAgree(items[i], a, b, here + [Index(i)]);
        }
      case _ =>
    }
  }

  /** Masking twice is masking by either test. */
  lemma {:induction false} MaskTwice(v: Json, a: Test, b: Test, here: Path)
    ensures Mask(Mask(v, a, here), b, here) == Mask(v, Either(a, b), here)
    decreases v
  {
    match v {
      case Object(members) =>
        forall k | k in members
          ensures Mask(Mask(members[k], a, here + [Key(k)]), b, here + [Key(k)])
               == Mask(members[k], Either(a, b), here + [Key(k)])
        {
          MaskTwice(members[k], a, b, here + [Key(k)]);
        }
      case Array(items) =>
        forall i | 0 <= i < |items|
          ensures Mask(Mask(items[i], a, here + [Index(i)]), b, here + [Index(i)])
               == Mask(items[i], Either(a, b), here + [Index(i)])
        {
          MaskTwice(items[i], a, b, here + [Index(i)]);
        }
      case _ =>
    }
  }

  /** A test that nothing below passes changes nothing. */
  lemma {:induction false} MaskNothing(v: Json, test: Test, here: Path)
    requires forall q: Path :: here <= q ==> !test(q)
    ensures Mask(v, test, here) == v
    decreases v
  {
    match v {
      case Object(members) =>
        forall k | k in members ensures Mask(members[k], test, here + [Key(k)]) == members[k] {
          MaskNothing(members[k], test, here + [Key(k)]);
        }
        assert Mask(v, test, here).members == members;
      case Array(items) =>
        forall i | 0 <= i < |items| ensures Mask(items[i], test, here + [Index(i)]) == items[i] {
          MaskNothing(items[i], test, here + [Index(i)]);
        }
        assert Mask(v, test, here).items == items;
      case _ =>
    }
  }

  // --------------------------------------------------------------- the two passes are maskings

  predicate IsUserData(q: Path) { q != [] && q[|q| - 1] == Key("user-data") }

  lemma LastStep(here: Path, step: Step)
    ensures IsUserData(here + [step]) <==> step == Key("user-data")
  {
  }

  function Stripped(k: string, v: Json): Json { if k == "user-data" then REDACTED else Strip(v) }

  lemma StripObject(members: map<string, Json>)
    ensures var v := Strip(Object(members));
            && v.Object? && v.members.Keys == members.Keys
            && forall k :: k in members ==> v.members[k] == Stripped(k, members[k])
  {
  }

  lemma StripMasksArray(items: seq<Json>, here: Path)
    requires !IsUserData(here)
    requires forall i :: 0 <= i < |items| ==> Strip(items[i]) == Mask(items[i], IsUserData, here + [Index(i)])
    ensures Strip(Array(items)) == Mask(Array(items), IsUserData, here)
  {
  }

  lemma StripScalar(v: Json, here: Path)
    requires !IsUserData(here) && !v.Object? && !v.Array?
    ensures Strip(v) == Mask(v, IsUserData, here)
  {
  }

  lemma {:induction false} StripIsMask(v: Json, here: Path)
    requires !IsUserData(here)
    ensures Strip(v) == Mask(v, IsUserData, here)
    decreases v
  {
    hide Strip, Mask, IsUserData;
    match v {
      case Object(members) =>
        StripObject(members);
        MaskObject(members, IsUserData, here);
        var stripped, masked := Strip(v).members, Mask(v, IsUserData, here).members;
        forall k | k in members ensures stripped[k] == masked[k] {
          LastStep(here, Key(k));
          if k == "user-data" {
            MaskAt(members[k], IsUserData, here + [Key(k)]);
          } else {
            StripIsMask(members[k], here + [Key(k)]);
          }
        }
        assert stripped == masked;
      case Array(items) =>
        forall i | 0 <= i < |items| ensures Strip(items[i]) == Mask(items[i], IsUserData, here + [Index(i)]) {
          LastStep(here, Index(i));
          StripIsMask(items[i], here + [Index(i)]);
        }
        StripMasksArray(items, here);
      case _ =>
        StripScalar(v, here);
    }
  }

  predicate Fits(token: string, step: Step) {
    match step
    case Key(k) => k == token
    case Index(i) => ParseIndex(token) == Some(i)
  }

  /** A path is what a list of tokens points to. */
  predicate Matches(tokens: seq<string>, q: Path) {
    |tokens| == |q| && forall i :: 0 <= i < |q| ==> Fits(tokens[i], q[i])
  }

  function PointedTo(tokens: seq<string>): Test { (q: Path) => Matches(tokens, q) }

  /** Off the pointer's way nothing changes. */
  lemma OffTheWay(v: Json, tokens: seq<string>, here: Path, n: nat)
    requires n < |here| && n < |tokens| && !Fits(tokens[n], here[n])
    ensures Mask(v, PointedTo(tokens), here) == v
  {
    forall q: Path | here <= q ensures !PointedTo(tokens)(q) {
      assert q[n] == here[n];
    }
    MaskNothing(v, PointedTo(tokens), here);
  }

  lemma {:induction false} OverwriteIsMask(v: Json, tokens: seq<string>, here: Path)
    requires |here| <= |tokens| && forall i :: 0 <= i < |here| ==> Fits(tokens[i], here[i])
    ensures Overwrite(v, tokens[|here|..]) == Mask(v, PointedTo(tokens), here)
    decreases v
  {
    hide Mask, ParseIndex;
    var n, test := |here|, PointedTo(tokens);
    if n == |tokens| {
      assert test(here);
      MaskAt(v, test, here);
    } else {
      assert !test(here);
      assert tokens[n..][0] == tokens[n] && tokens[n..][1..] == tokens[n + 1..];
      match v {
        case Object(members) =>
          MaskObject(members, test, here);
          var masked, written := Mask(v, test, here).members, Overwrite(v, tokens[n..]).members;
          forall k | k in members ensures masked[k] == written[k] {
            if k == tokens[n] {
              OverwriteIsMask(members[k], tokens, here + [Key(k)]);
            } else {
              OffTheWay(members[k], tokens, here + [Key(k)], n);
            }
          }
          assert masked == written;
        case Array(items) =>
          MaskArray(items, test, here);
          var masked, written := Mask(v, test, here).items, Overwrite(v, tokens[n..]).items;
          forall i | 0 <= i < |items| ensures masked[i] == written[i] {
            if ParseIndex(tokens[n]) == Some(i) {
              OverwriteIsMask(items[i], tokens, here + [Index(i)]);
            } else {
              OffTheWay(items[i], tokens, here + [Index(i)], n);
            }
          }
          assert masked == written;
        case _ =>
          MaskScalar(v, test, here);
      }
    }
  }

  function AnyPointer(pointers: seq<seq<string>>): Test {
    (q: Path) => exists t :: t in pointers && Matches(t, q)
  }

  lemma {:induction false} OverwriteAllIsMask(v: Json, pointers: seq<seq<string>>)
    ensures OverwriteAll(v, pointers) == Mask(v, AnyPointer(pointers), [])
  {
    if pointers == [] {
      MaskNothing(v, AnyPointer(pointers), []);
    } else {
      var front, last := pointers[..|pointers| - 1], pointers[|pointers| - 1];
      OverwriteAllIsMask(v, front);
      OverwriteIsMask(OverwriteAll(v, front), last, []);
      assert last[0..] == last;
      MaskTwice(v, AnyPointer(front), PointedTo(last), []);
      assert pointers == front + [last];
      MaskAgree(v, Either(AnyPointer(front), PointedTo(last)), AnyPointer(pointers), []);
    }
  }

  // ------------------------------------------------------------------------------ main results

  /** A path that must not be shown: below no other, a user-data member or a pointer's target. */
  function Sensitive(pointers: seq<seq<string>>): Test { Either(AnyPointer(pointers), IsUserData) }

  /** Both passes together are one masking by the sensitive paths. */
  lemma RedactionIsMask(v: Json, pointers: seq<seq<string>>)
    ensures Strip(OverwriteAll(v, pointers)) == Mask(v, Sensitive(pointers), [])
  {
    OverwriteAllIsMask(v, pointers);
    StripIsMask(OverwriteAll(v, pointers), []);
    MaskTwice(v, AnyPointer(pointers), IsUserData, []);
  }

  /** The passes may be run in either order. */
  lemma PassesCommute(v: Json, pointers: seq<seq<string>>)
    ensures OverwriteAll(Strip(v), pointers) == Strip(OverwriteAll(v, pointers))
  {
    RedactionIsMask(v, pointers);
    StripIsMask(v, []);
    OverwriteAllIsMask(Strip(v), pointers);
    MaskTwice(v, IsUserData, AnyPointer(pointers), []);
    MaskAgree(v, Either(IsUserData, AnyPointer(pointers)), Sensitive(pointers), []);
  }

  /** Redacting again changes nothing. */
  lemma RedactionIdempotent(v: Json, pointers: seq<seq<string>>)
    ensures var once := Strip(OverwriteAll(v, pointers));
            Strip(OverwriteAll(once, pointers)) == once
  {
    var once, test := Strip(OverwriteAll(v, pointers)), Sensitive(pointers);
    RedactionIsMask(v, pointers);
    RedactionIsMask(once, pointers);
    MaskTwice(v, test, test, []);
    MaskAgree(v, Either(test, test), test, []);
  }

  /** What a reader can see of one node: a scalar, the keys of an object, the length of an array. */
  datatype Node = Scalar(value: Json) | Keys(keys: set<string>) | Length(length: nat)

  function NodeOf(v: Json): Node {
    match v
    case Object(members) => Keys(members.Keys)
    case Array(items) => Length(|items|)
    case _ => Scalar(v)
  }

  function Look(v: Json, path: Path): Option<Node>
    decreases |path|
  {
    if path == [] then Some(NodeOf(v))
    else match v
      case Object(members) =>
        if path[0].Key? && path[0].k in members then Look(members[path[0].k], path[1..]) else None
      case Array(items) =>
        if path[0].Index? && path[0].i < |items| then Look(items[path[0].i], path[1..]) else None
      case _ => None
  }

  /** Some proper prefix of the path, beginning at `here`, passes the test. */
  ghost predicate Below(test: Test, here: Path, path: Path) {
    exists n :: 0 <= n < |path| && test(here + path[..n])
  }

  lemma BelowStep(test: Test, here: Path, path: Path)
    requires path != [] && !test(here)
    ensures Below(test, here, path) <==> Below(test, here + [path[0]], path[1..])
  {
    if Below(test, here, path) {
      var n :| 0 <= n < |path| && test(here + path[..n]);
      assert here + path[..0] == here;
      assert n > 0;
      assert path[..n] == [path[0]] + path[1..][..n - 1];
      assert here + path[..n] == here + [path[0]] + path[1..][..n - 1];
    }
    if Below(test, here + [path[0]], path[1..]) {
      var n :| 0 <= n < |path| - 1 && test(here + [path[0]] + path[1..][..n]);
      assert path[..n + 1] == [path[0]] + path[1..][..n];
      assert here + path[..n + 1] == here + [path[0]] + path[1..][..n];
    }
  }

  lemma {:induction false} MaskLook(v: Json, test: Test, here: Path, path: Path)
    ensures Look(Mask(v, test, here), path) ==
            if Below(test, here, path) then None
            else if test(here + path) then (if Look(v, path).Some? then Some(Scalar(REDACTED)) else None)
            else Look(v, path)
    decreases |path|
  {
    if path == [] {
      assert here + path == here;
      if !test(here) {
        MaskNode(v, test, here);
      }
    } else if test(here) {
      assert here + path[..0] == here;
    } else {
      BelowStep(test, here, path);
      assert here + [path[0]] + path[1..] == here + path;
      match v {
        case Object(members) =>
          if path[0].Key? && path[0].k in members {
            MaskLook(members[path[0].k], test, here + [path[0]], path[1..]);
          }
        case Array(items) =>
          if path[0].Index? && path[0].i < |items| {
            MaskLook(items[path[0].i], test, here + [path[0]], path[1..]);
          }
        case _ =>
      }
    }
  }

  lemma MaskNode(v: Json, test: Test, here: Path)
    requires !test(here)
    ensures NodeOf(Mask(v, test, here)) == NodeOf(v)
  {
    if v.Object? {
      assert Mask(v, test, here).members.Keys == v.members.Keys;
    }
  }

  /** Complete and minimal: after redaction every existing sensitive path holds "REDACTED" or is
      gone because a path above it does, and every other path shows exactly what it did. */
  lemma RedactionCompleteAndMinimal(v: Json, pointers: seq<seq<string>>, path: Path)
    ensures Look(Strip(OverwriteAll(v, pointers)), path) ==
            if Below(Sensitive(pointers), [], path) then None
            else if Sensitive(pointers)(path) then (if Look(v, path).Some? then Some(Scalar(String("REDACTED"))) else None)
            else Look(v, path)
  {
    RedactionIsMask(v, pointers);
    MaskLook(v, Sensitive(pointers), [], path);
    assert [] + path == path;
  }

  /** What logdog writes: every hidden setting that exists is "REDACTED" or lies inside one that is. */
  lemma SensitiveSettingsHidden(v: Json, place: seq<string>, path: Path)
    requires place in SENSITIVE_SETTINGS && Matches(place, path) && Look(v, path).Some?
    ensures var shown := Strip(OverwriteAll(v, Targets(SENSITIVE_SETTINGS_PATTERNS)));
            || Look(shown, path) == Some(Scalar(String("REDACTED")))
            || (Look(shown, path).None? && Below(Sensitive(SENSITIVE_SETTINGS), [], path))
  {
    PatternsAsWritten();
    RedactionCompleteAndMinimal(v, SENSITIVE_SETTINGS, path);
    assert AnyPointer(SENSITIVE_SETTINGS)(path);
  }
}
