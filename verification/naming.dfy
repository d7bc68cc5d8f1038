/** Transaction-name derivation of the NewRelic trait: a console shell or a web
    request is turned into a slash-separated transaction name. Both derivations
    are functions of the descriptor fields alone; they read no other state. */
module Naming {
  import opened Php

  /** The fields of a console `Shell` that the naming reads. */
  datatype Shell = Shell(plugin: Option<string>, name: Option<string>, command: Option<string>)

  /** The fields of a `CakeRequest` that the naming reads: the routing
      parameters, the raw request path `here` and the file extension. */
  datatype Request = Request(
    prefix: Option<string>,
    plugin: Option<string>,
    controller: Option<string>,
    action: Option<string>,
    here: string,
    ext: Option<string>)

  /** The argument of `setName`: a plain string, a shell, a request, or null. */
  datatype NameInput = Str(s: string) | ShellIn(shell: Shell) | RequestIn(request: Request) | Null

  /** `_deriveNameFromShell`: the plugin (only when truthy), the shell name and
      the command, joined with "/". */
  function DeriveNameFromShell(shell: Shell): string {
    var name := (if Truthy(shell.plugin) then [shell.plugin.value] else [])
                + [ToStr(shell.name), ToStr(shell.command)];
    Implode("/", name)
  }

  /** The list `_deriveNameFromRequest` builds before filtering: prefix and
      plugin only when truthy, then controller and action unconditionally. */
  function CollectRequestSegments(request: Request): seq<Option<string>> {
    (if Truthy(request.prefix) then [request.prefix] else [])
    + (if Truthy(request.plugin) then [request.plugin] else [])
    + [request.controller, request.action]
  }

  /** `_deriveNameFromRequest`: the truthy segments joined with "/" and
      suffixed with ".ext" when the extension is truthy; the raw path `here`
      when no segment is truthy. */
  function DeriveNameFromRequest(request: Request): string {
    var name := FilterTruthy(CollectRequestSegments(request));
    if name == [] then request.here
    else
      var joined := Implode("/", name);
      if Truthy(request.ext) then joined + "." + request.ext.value else joined
  }

  /** The name `setName` stores for its argument. */
  function ResolveName(x: NameInput): (r: Option<string>)
    ensures x.Str? ==> r == Some(x.s)
    ensures r.None? <==> x.Null?
  {
    match x
    case Str(s) => Some(s)
    case ShellIn(shell) => Some(DeriveNameFromShell(shell))
    case RequestIn(request) => Some(DeriveNameFromRequest(request))
    case Null => None
  }

  // ---------------------------------------------------------------------------
  // Reference view of the request segments and the suffix

  /** The request's segments as the naming promises them: the truthy ones
      among prefix, plugin, controller and action, in that fixed order. */
  function RequestSegments(request: Request): seq<string> {
    Keep(request.prefix) + Keep(request.plugin) + Keep(request.controller) + Keep(request.action)
  }

  /** No routing parameter of the request is truthy. */
  predicate AllFalsy(request: Request) {
    !Truthy(request.prefix) && !Truthy(request.plugin)
    && !Truthy(request.controller) && !Truthy(request.action)
  }

  /** The suffix added after the joined segments. */
  function ExtSuffix(ext: Option<string>): string {
    if Truthy(ext) then "." + ext.value else ""
  }

  /** No segment holds a "/", so the name can be split back into its segments. */
  predicate SlashFree(segments: seq<string>) {
    forall p :: p in segments ==> '/' !in p
  }

  // ---------------------------------------------------------------------------
  // Shell derivation

  /** A falsy plugin gives "name/command"; a truthy one gives
      "plugin/name/command". Name and command are present even when empty. */
  lemma ShellNameShape(shell: Shell)
    ensures !Truthy(shell.plugin) ==>
      DeriveNameFromShell(shell) == ToStr(shell.name) + "/" + ToStr(shell.command)
    ensures Truthy(shell.plugin) ==>
      DeriveNameFromShell(shell)
        == shell.plugin.value + "/" + ToStr(shell.name) + "/" + ToStr(shell.command)
  {
    var tail := [ToStr(shell.name), ToStr(shell.command)];
    ImplodeCons("/", ToStr(shell.name), [ToStr(shell.command)]);
    if Truthy(shell.plugin) {
      ImplodeCons("/", shell.plugin.value, tail);
      assert [shell.plugin.value] + tail == [shell.plugin.value, ToStr(shell.name), ToStr(shell.command)];
    } else {
      assert [] + tail == [ToStr(shell.name)] + [ToStr(shell.command)];
    }
  }

  /** Splitting a shell's name at "/" gives back the optional plugin, the
      shell name and the command, when none of them holds a "/". */
  lemma ShellNameSegments(shell: Shell)
    requires SlashFree(Keep(shell.plugin) + [ToStr(shell.name), ToStr(shell.command)])
    ensures Explode('/', DeriveNameFromShell(shell))
            == Keep(shell.plugin) + [ToStr(shell.name), ToStr(shell.command)]
  {
    ExplodeImplode('/', Keep(shell.plugin) + [ToStr(shell.name), ToStr(shell.command)]);
  }

  // ---------------------------------------------------------------------------
  // Request derivation

  /** After filtering, the segments are exactly the truthy routing
      parameters in the order prefix, plugin, controller, action. */
  lemma FilteredRequestSegments(request: Request)
    ensures FilterTruthy(CollectRequestSegments(request)) == RequestSegments(request)
  {
    var pre := if Truthy(request.prefix) then [request.prefix] else [];
    var plug := if Truthy(request.plugin) then [request.plugin] else [];
    var ca := [request.controller, request.action];
    calc {
      FilterTruthy(CollectRequestSegments(request));
      FilterTruthy((pre + plug) + ca);
      { FilterTruthyAppend(pre + plug, ca); }
      FilterTruthy(pre + plug) + FilterTruthy(ca);
      { FilterTruthyAppend(pre, plug); }
      FilterTruthy(pre) + FilterTruthy(plug) + FilterTruthy(ca);
      { FilterTruthyGuarded(request.prefix); FilterTruthyGuarded(request.plugin);
        FilterTruthyPair(request.controller, request.action); }
      Keep(request.prefix) + Keep(request.plugin) + (Keep(request.controller) + Keep(request.action));
    }
  }

  /** The raw path is returned exactly when prefix, plugin, controller and
      action are all falsy; otherwise the name is the joined segments followed
      by ".ext" if and only if the extension is truthy. */
  lemma RequestNameCases(request: Request)
    ensures RequestSegments(request) == [] <==> AllFalsy(request)
    ensures AllFalsy(request) ==> DeriveNameFromRequest(request) == request.here
    ensures !AllFalsy(request) && Truthy(request.ext) ==>
      DeriveNameFromRequest(request)
        == Implode("/", RequestSegments(request)) + "." + request.ext.value
    ensures !AllFalsy(request) && !Truthy(request.ext) ==>
      DeriveNameFromRequest(request) == Implode("/", RequestSegments(request))
  {
    FilteredRequestSegments(request);
  }

  /** On the fallback path the raw path is returned verbatim: the extension
      is not appended, whatever it is. */
  lemma RequestFallbackIgnoresExt(request: Request, ext: Option<string>)
    requires AllFalsy(request)
    ensures DeriveNameFromRequest(request.(ext := ext)) == request.here
  {
    RequestNameCases(request.(ext := ext));
  }

  /** Splitting a request's name at "/" gives back its truthy segments in
      order, the last one carrying the ".ext" suffix, when no segment or
      extension holds a "/". */
  lemma RequestNameSegments(request: Request)
    requires !AllFalsy(request)
    requires SlashFree(RequestSegments(request) + [ExtSuffix(request.ext)])
    ensures var segs := RequestSegments(request);
      Explode('/', DeriveNameFromRequest(request))
        == segs[..|segs| - 1] + [segs[|segs| - 1] + ExtSuffix(request.ext)]
  {
    RequestNameCases(request);
    var segs := RequestSegments(request);
    var x := ExtSuffix(request.ext);
    var suffixed := segs[..|segs| - 1] + [segs[|segs| - 1] + x];
    ImplodeAppendToLast("/", segs, x);
    assert segs[|segs| - 1] in segs + [x];
    assert x in segs + [x];
    forall p | p in suffixed ensures '/' !in p {
      if p in segs[..|segs| - 1] {
        assert p in segs + [x];
      }
    }
    assert Truthy(request.ext) ==> "." + request.ext.value == x;
    assert Implode("/", segs) + x == DeriveNameFromRequest(request);
    ExplodeImplode('/', suffixed);
  }

  /** With every field truthy the name is "prefix/plugin/controller/action.ext". */
  lemma RequestNameAllTruthy(request: Request)
    requires Truthy(request.prefix) && Truthy(request.plugin)
    requires Truthy(request.controller) && Truthy(request.action)
    requires Truthy(request.ext)
    ensures DeriveNameFromRequest(request)
      == request.prefix.value + "/" + request.plugin.value + "/"
         + request.controller.value + "/" + request.action.value + "." + request.ext.value
  {
    RequestNameCases(request);
    var p, g, c, a := request.prefix.value, request.plugin.value,
                      request.controller.value, request.action.value;
    assert RequestSegments(request) == [p, g, c, a];
    ImplodeCons("/", c, [a]);
    ImplodeCons("/", g, [c, a]);
    assert [g] + [c, a] == [g, c, a];
    ImplodeCons("/", p, [g, c, a]);
    assert [p] + [g, c, a] == [p, g, c, a];
  }

  /** A controller and action with nothing else give "Controller/action". */
  lemma RequestNameExampleUsersView()
    ensures DeriveNameFromRequest(Request(None, None, Some("Users"), Some("view"), "/users/view/1", None))
            == "Users/view"
  {
  }

  /** A plugin named "0" is falsy in PHP and is dropped from the name, as is an
      empty prefix and an extension "0". */
  lemma RequestNameExampleZeroDropped()
    ensures DeriveNameFromRequest(Request(Some(""), Some("0"), Some("Posts"), Some("index"), "/posts", Some("0")))
            == "Posts/index"
  {
  }
}
