/** The forbid-scope checks of the snapshot delta: each names its blast radius, and a missing scope fact is a violation. */
module ForbidScopes {
  import opened Options
  import opened Values
  import T = Text

  const EXTENSION_KEYS := ["ad.gPCMachineExtensionNames", "ad.gPCUserExtensionNames"]
  const PATHS_KEY := "scope.sysvol_relpaths"
  const CONTAINER_KEY := "scope.policies.gpc_guids"

  datatype Violation =
    | ListAbsent(key: string)
    | GuidListed(token: string)
    | PathsUnknown
    | PathsOutside(paths: seq<Value>)
    | ContainerUnknown(pre: bool, post: bool)    // on which sides the fact is missing
    | ContainerMalformed
    | ContainerChanged(added: set<string>, removed: set<string>)

  /** What the checks are told: the GUIDs no extension list may hold, and the GPO all files have to stay under. */
  datatype Scopes = Scopes(forbidden: seq<string>, gpo: Option<string>)

  function StripOf(s: string, cs: set<char>): string
    decreases |s|
  {
    if s == "" then s
    else if s[0] in cs then StripOf(s[1..], cs)
    else if s[|s| - 1] in cs then StripOf(s[..|s| - 1], cs)
    else s
  }

  /** A GUID without the brackets it may come in, in upper case, in braces. */
  function Token(upper: T.Fold, guid: string): string {
    "{" + upper(StripOf(StripOf(T.Strip(guid), {'{', '}'}), {'(', ')'})) + "}"
  }

  // ----- what the three scopes demand -----

  /** Some extension list holds the token. */
  predicate Holds(upper: T.Fold, post: Facts, token: string) {
    exists i :: 0 <= i < |EXTENSION_KEYS| && EXTENSION_KEYS[i] in post && post[EXTENSION_KEYS[i]].VStr?
                && Substring(token, upper(post[EXTENSION_KEYS[i]].s))
  }

  predicate ListsClean(upper: T.Fold, post: Facts, forbidden: seq<string>) {
    forbidden != [] ==>
      (forall i :: 0 <= i < |EXTENSION_KEYS| ==> EXTENSION_KEYS[i] in post)
      && forall g :: g in forbidden ==> !Holds(upper, post, Token(upper, g))
  }

  predicate Under(upper: T.Fold, gpo: string, path: Value) {
    path.VStr? && Token(upper, gpo) + "/" <= upper(path.s)
  }

  predicate PathsContained(upper: T.Fold, post: Facts, gpo: Option<string>) {
    gpo.Some? ==> PATHS_KEY in post && post[PATHS_KEY].VList? && forall path :: path in post[PATHS_KEY].items ==> Under(upper, gpo.get, path)
  }

  function StringsIn(items: seq<Value>): set<string> {
    set v | v in items && v.VStr? :: v.s
  }

  predicate ContainerStable(pre: Facts, post: Facts) {
    CONTAINER_KEY in pre && CONTAINER_KEY in post && pre[CONTAINER_KEY].VList? && post[CONTAINER_KEY].VList?
    && StringsIn(pre[CONTAINER_KEY].items) == StringsIn(post[CONTAINER_KEY].items)
  }

  predicate AllClean(upper: T.Fold, pre: Facts, post: Facts, scopes: Scopes) {
    ListsClean(upper, post, scopes.forbidden) && PathsContained(upper, post, scopes.gpo) && ContainerStable(pre, post)
  }

  /** A token stands in an extension list when the list's text, in upper case, has it somewhere. */
  lemma ListedMeans(upper: T.Fold, post: Facts, token: string)
    ensures Holds(upper, post, token) <==>
      Listed(upper, post, "ad.gPCMachineExtensionNames", token) || Listed(upper, post, "ad.gPCUserExtensionNames", token)
  {
    SubstringMeans(upper, post, 0, token);
    SubstringMeans(upper, post, 1, token);
    hide Substring, Listed;
  }

  ghost predicate Listed(upper: T.Fold, post: Facts, key: string, token: string) {
    key in post && post[key].VStr? && exists before: string, after: string :: upper(post[key].s) == before + token + after
  }

  lemma SubstringMeans(upper: T.Fold, post: Facts, i: nat, token: string)
    requires i < |EXTENSION_KEYS|
    ensures
      var key := EXTENSION_KEYS[i];
      Listed(upper, post, key, token) <==> key in post && post[key].VStr? && Substring(token, upper(post[key].s))
  {
    var key := EXTENSION_KEYS[i];
    if key in post && post[key].VStr? {
      var s := upper(post[key].s);
      if Substring(token, s) {
        var at :| 0 <= at <= |s| && token <= s[at..];
        assert s == s[..at] + token + s[at + |token|..];
      }
      forall before: string, after: string | s == before + token + after ensures Substring(token, s) {
        assert token <= s[|before|..];
      }
    }
  }

  /** However a GUID is bracketed, its token is the bare GUID in upper case, in braces. */
  lemma TokenIgnoresBrackets(upper: T.Fold, guid: string)
    requires guid != "" && T.Trimmed(guid)
    requires guid[0] !in {'{', '}', '(', ')'} && guid[|guid| - 1] !in {'{', '}', '(', ')'}
    ensures Token(upper, guid) == "{" + upper(guid) + "}"
    ensures Token(upper, "{" + guid + "}") == Token(upper, guid) == Token(upper, "(" + guid + ")")
  {
    var braced, bracketed := "{" + guid + "}", "(" + guid + ")";
    assert StripOf(guid, {'{', '}'}) == guid && StripOf(guid, {'(', ')'}) == guid;
    assert T.Trimmed(braced) && T.Trimmed(bracketed);
    assert braced[1..] == guid + "}" && (guid + "}")[..|guid|] == guid && (guid + "}")[0] == guid[0];
    assert bracketed[1..] == guid + ")" && (guid + ")")[..|guid|] == guid && (guid + ")")[0] == guid[0];
    assert StripOf(guid + "}", {'{', '}'}) == guid && StripOf(braced, {'{', '}'}) == guid;
    assert StripOf(bracketed, {'{', '}'}) == bracketed;
    assert StripOf(guid + ")", {'(', ')'}) == guid && StripOf(bracketed, {'(', ')'}) == guid;
  }

  /** What the three scopes demand, in full. */
  lemma AllCleanMeans(upper: T.Fold, pre: Facts, post: Facts, scopes: Scopes)
    ensures AllClean(upper, pre, post, scopes) <==>
      && (scopes.forbidden != [] ==>
        "ad.gPCMachineExtensionNames" in post && "ad.gPCUserExtensionNames" in post
        && forall g :: g in scopes.forbidden ==>
          !Listed(upper, post, "ad.gPCMachineExtensionNames", Token(upper, g))
          && !Listed(upper, post, "ad.gPCUserExtensionNames", Token(upper, g)))
      && (scopes.gpo.Some? ==>
        "scope.sysvol_relpaths" in post && post["scope.sysvol_relpaths"].VList?
        && forall path :: path in post["scope.sysvol_relpaths"].items ==>
          path.VStr? && Token(upper, scopes.gpo.get) + "/" <= upper(path.s))
      && "scope.policies.gpc_guids" in pre && pre["scope.policies.gpc_guids"].VList?
      && "scope.policies.gpc_guids" in post && post["scope.policies.gpc_guids"].VList?
      && forall g: string ::
        VStr(g) in pre["scope.policies.gpc_guids"].items <==> VStr(g) in post["scope.policies.gpc_guids"].items
  {
    ListsCleanMeans(upper, post, scopes.forbidden);
    ContainerMeans(pre, post);
    hide Holds, Listed, Token, ContainerStable, ListsClean;
  }

  lemma ListsCleanMeans(upper: T.Fold, post: Facts, forbidden: seq<string>)
    ensures ListsClean(upper, post, forbidden) <==>
      (forbidden != [] ==>
        "ad.gPCMachineExtensionNames" in post && "ad.gPCUserExtensionNames" in post
        && forall g :: g in forbidden ==>
          !Listed(upper, post, "ad.gPCMachineExtensionNames", Token(upper, g))
          && !Listed(upper, post, "ad.gPCUserExtensionNames", Token(upper, g)))
  {
    forall token ensures Holds(upper, post, token) <==>
      Listed(upper, post, "ad.gPCMachineExtensionNames", token) || Listed(upper, post, "ad.gPCUserExtensionNames", token)
    {
      ListedMeans(upper, post, token);
    }
    hide Holds, Listed, Token;
    assert EXTENSION_KEYS[0] == "ad.gPCMachineExtensionNames" && EXTENSION_KEYS[1] == "ad.gPCUserExtensionNames";
  }

  lemma ContainerMeans(pre: Facts, post: Facts)
    ensures ContainerStable(pre, post) <==>
      && "scope.policies.gpc_guids" in pre && pre["scope.policies.gpc_guids"].VList?
      && "scope.policies.gpc_guids" in post && post["scope.policies.gpc_guids"].VList?
      && forall g: string ::
        VStr(g) in pre["scope.policies.gpc_guids"].items <==> VStr(g) in post["scope.policies.gpc_guids"].items
  {
    if CONTAINER_KEY in pre && CONTAINER_KEY in post && pre[CONTAINER_KEY].VList? && post[CONTAINER_KEY].VList? {
      var a, b := pre[CONTAINER_KEY].items, post[CONTAINER_KEY].items;
      StringsInMeans(a);
      StringsInMeans(b);
      hide StringsIn;
      if forall g: string :: VStr(g) in a <==> VStr(g) in b {
        assert forall g: string :: g in StringsIn(a) <==> g in StringsIn(b);
        assert StringsIn(a) == StringsIn(b);
      }
    }
  }

  lemma StringsInMeans(items: seq<Value>)
    ensures forall g: string :: g in StringsIn(items) <==> VStr(g) in items
  {
  }

  // ----- the checks -----

  method CheckExtensionLists(upper: T.Fold, post: Facts, forbidden: seq<string>) returns (vs: seq<Violation>)
    ensures forall k :: ListAbsent(k) in vs <==> forbidden != [] && k in EXTENSION_KEYS && k !in post
    ensures forall t :: GuidListed(t) in vs <==> Holds(upper, post, t) && exists g :: g in forbidden && t == Token(upper, g)
    ensures forall v :: v in vs ==> v.ListAbsent? || v.GuidListed?
  {
    vs := [];
    if forbidden == [] {
      return;
    }
    var values: seq<string> := [];
    for i := 0 to |EXTENSION_KEYS|
      invariant forall k :: ListAbsent(k) in vs <==> k in EXTENSION_KEYS[..i] && k !in post
      invariant forall v :: v in vs ==> v.ListAbsent?
      invariant forall s :: s in values <==>
        exists j :: 0 <= j < i && EXTENSION_KEYS[j] in post && post[EXTENSION_KEYS[j]].VStr? && s == upper(post[EXTENSION_KEYS[j]].s)
    {
      var key := EXTENSION_KEYS[i];
      assert EXTENSION_KEYS[..i + 1] == EXTENSION_KEYS[..i] + [key];
      if key !in post {
        vs := vs + [ListAbsent(key)];
      } else if post[key].VStr? {
        values := values + [upper(post[key].s)];
      }
    }
    ghost var absent := vs;
    for i := 0 to |forbidden|
      invariant forall k :: ListAbsent(k) in vs <==> ListAbsent(k) in absent
      invariant forall t :: GuidListed(t) in vs <==> Holds(upper, post, t) && exists g :: g in forbidden[..i] && t == Token(upper, g)
      invariant forall v :: v in vs ==> v.ListAbsent? || v.GuidListed?
    {
      var token := Token(upper, forbidden[i]);
      assert forbidden[..i + 1] == forbidden[..i] + [forbidden[i]];
      if exists s :: s in values && Substring(token, s) {
        assert Holds(upper, post, token);
        vs := vs + [GuidListed(token)];
      }
    }
    assert forbidden[..|forbidden|] == forbidden && EXTENSION_KEYS[..|EXTENSION_KEYS|] == EXTENSION_KEYS;
  }

  method CheckContainment(upper: T.Fold, post: Facts, gpo: Option<string>) returns (v: Option<Violation>)
    ensures v.None? <==> PathsContained(upper, post, gpo)
    ensures v == Some(PathsUnknown) <==> gpo.Some? && !(PATHS_KEY in post && post[PATHS_KEY].VList?)
    ensures v.Some? && v.get != PathsUnknown ==> v.get.PathsOutside? && v.get.paths != []
    ensures v.Some? && v.get.PathsOutside? ==>
      forall path :: path in v.get.paths <==> path in post[PATHS_KEY].items && !Under(upper, gpo.get, path)
  {
    if gpo.None? {
      return None;
    }
    if PATHS_KEY !in post || !post[PATHS_KEY].VList? {
      return Some(PathsUnknown);
    }
    hide Under;
    var items := post[PATHS_KEY].items;
    var escapers: seq<Value> := [];
    for i := 0 to |items|
      invariant forall path :: path in escapers <==> path in items[..i] && !Under(upper, gpo.get, path)
    {
      assert items[..i + 1] == items[..i] + [items[i]];
      if !Under(upper, gpo.get, items[i]) {
        escapers := escapers + [items[i]];
      }
    }
    assert items[..|items|] == items;
    if escapers == [] {
      return None;
    }
    assert escapers[0] in escapers;
    v := Some(PathsOutside(escapers));
  }

  /** The only violation of the container's object set there can be. */
  function ContainerViolation(pre: Facts, post: Facts): (v: Option<Violation>)
    ensures v.None? <==> ContainerStable(pre, post)
    ensures v.Some? && v.get.ContainerChanged? ==> v.get.added + v.get.removed != {}
  {
    if CONTAINER_KEY !in pre || CONTAINER_KEY !in post then Some(ContainerUnknown(CONTAINER_KEY !in pre, CONTAINER_KEY !in post))
    else if !pre[CONTAINER_KEY].VList? || !post[CONTAINER_KEY].VList? then Some(ContainerMalformed)
    else
      var before, after := StringsIn(pre[CONTAINER_KEY].items), StringsIn(post[CONTAINER_KEY].items);
      assert after - before == {} && before - after == {} <==> before == after by { SameSets(before, after); }
      if after - before == {} && before - after == {} then None else Some(ContainerChanged(after - before, before - after))
  }

  /** The violation says on which sides the container's fact is missing, or which objects came and which went. */
  lemma ContainerViolationSays(pre: Facts, post: Facts)
    ensures
      var (key, v) := ("scope.policies.gpc_guids", ContainerViolation(pre, post));
      && (key !in pre || key !in post ==> v == Some(ContainerUnknown(key !in pre, key !in post)))
      && (key in pre && key in post && pre[key].VList? && post[key].VList? && v.Some? ==>
            && v.get.ContainerChanged?
            && (forall g: string :: g in v.get.added <==> VStr(g) in post[key].items && VStr(g) !in pre[key].items)
            && (forall g: string :: g in v.get.removed <==> VStr(g) in pre[key].items && VStr(g) !in post[key].items))
  {
    var key := "scope.policies.gpc_guids";
    if key in pre && key in post && pre[key].VList? && post[key].VList? {
      StringsInMeans(pre[key].items);
      StringsInMeans(post[key].items);
    }
    hide StringsIn;
  }

  lemma SameSets(a: set<string>, b: set<string>)
    ensures a - b == {} && b - a == {} <==> a == b
  {
    if a - b == {} && b - a == {} {
      forall x ensures x in a <==> x in b {
        assert x !in a - b && x !in b - a;
      }
    }
  }

  /** All three checks; nothing is reported exactly when every scope is there and clean. */
  method CheckForbids(upper: T.Fold, pre: Facts, post: Facts, scopes: Scopes) returns (vs: seq<Violation>)
    ensures vs == [] <==> AllClean(upper, pre, post, scopes)
  {
    hide Holds, Under, Token, Substring;
    vs := CheckExtensionLists(upper, post, scopes.forbidden);
    ListsCleanExactly(upper, post, scopes.forbidden, vs);
    var outside := CheckContainment(upper, post, scopes.gpo);
    if outside.Some? {
      vs := vs + [outside.get];
    }
    var moved := ContainerViolation(pre, post);
    if moved.Some? {
      vs := vs + [moved.get];
    }
  }

  lemma ListsCleanExactly(upper: T.Fold, post: Facts, forbidden: seq<string>, vs: seq<Violation>)
    requires forall k :: ListAbsent(k) in vs <==> forbidden != [] && k in EXTENSION_KEYS && k !in post
    requires forall t :: GuidListed(t) in vs <==> Holds(upper, post, t) && exists g :: g in forbidden && t == Token(upper, g)
    requires forall v :: v in vs ==> v.ListAbsent? || v.GuidListed?
    ensures vs == [] <==> ListsClean(upper, post, forbidden)
  {
    hide Holds, Token;
    if vs == [] && forbidden != [] {
      forall i | 0 <= i < |EXTENSION_KEYS| ensures EXTENSION_KEYS[i] in post {
        assert ListAbsent(EXTENSION_KEYS[i]) !in vs;
      }
      forall g | g in forbidden ensures !Holds(upper, post, Token(upper, g)) {
        assert GuidListed(Token(upper, g)) !in vs;
      }
    }
    if vs != [] {
      assert vs[0] in vs;
      if vs[0].ListAbsent? {
        assert ListAbsent(vs[0].key) in vs;
      } else {
        assert GuidListed(vs[0].token) in vs;
      }
    }
  }
}
