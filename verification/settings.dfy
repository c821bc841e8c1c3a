/** Construction-time configuration: `_SetsAndChecksVariable`,
    `_SetsAndChecksVariableWithDefaultValue` and `_SetParameters`. The settings
    are a JSON object already loaded by the caller. */
module Settings {
  import opened Common
  import opened Text

  /** A JSON value as loaded by the caller; only its type and, for the types
      the client reads, its content matter. */
  datatype Value =
    | VInt(i: int)
    | VBool(b: bool)
    | VFloat
    | VStr(s: string)
    | VList(items: seq<Value>)
    | VObject
    | VNull

  /** The Python types the settings are checked against. */
  datatype PyType = IntType | StrType | ListType

  /** The validated configuration of one client. */
  datatype Config = Config(
    maxThreads: int,
    refreshToken: string,
    url: string,
    authUrl: string,
    clientId: string,
    permissions: seq<string>,
    redirectUri: string,
    refreshInterval: int,
    retryCount: int,
    scope: string)

  const InitPrefix: string := "Could not initialize parameters: "
  const DefaultRefreshInterval: int := 3600
  const DefaultRetryCount: int := 50
  const ScopeSeparator: char := '+'

  /** Python `isinstance(v, t)`; `bool` is a subclass of `int`. */
  predicate IsInstance(v: Value, t: PyType)
  {
    match t
    case IntType => v.VInt? || v.VBool?
    case StrType => v.VStr?
    case ListType => v.VList?
  }

  /** The integer a value passing the `int` check stands for. */
  function AsInt(v: Value): int
    requires IsInstance(v, IntType)
  {
    if v.VInt? then v.i else if v.b then 1 else 0
  }

  /** Python's name of the type of a value. */
  function TypeName(v: Value): string
  {
    match v
    case VInt(_) => "int"
    case VBool(_) => "bool"
    case VFloat => "float"
    case VStr(_) => "str"
    case VList(_) => "list"
    case VObject => "dict"
    case VNull => "NoneType"
  }

  function MissingMessage(key: string): string
  {
    "The variable \"" + key + "\" is not given in the settings-json-file."
  }

  function MistypedMessage(key: string): string
  {
    "The variable \"" + key + "\" did not match the specified data type"
  }

  /** `_SetsAndChecksVariable`: the value under `key` when present and of type
      `t`; otherwise the exception it raises. */
  function CheckVariable(params: map<string, Value>, key: string, t: PyType): (r: Result<Value>)
    ensures r.Ok? <==> key in params && IsInstance(params[key], t)
    ensures r.Ok? ==> r.value == params[key]
    ensures key !in params ==> r == Err(Raised(MissingMessage(key)))
    ensures key in params && !IsInstance(params[key], t) ==> r == Err(Raised(MistypedMessage(key)))
  {
    if key !in params then Err(Raised(MissingMessage(key)))
    else if IsInstance(params[key], t) then Ok(params[key])
    else Err(Raised(MistypedMessage(key)))
  }

  /** `_SetsAndChecksVariableWithDefaultValue` for an integer setting: any
      exception of the check is swallowed and the default used instead. */
  function IntOrDefault(params: map<string, Value>, key: string, default: int): (n: int)
    ensures key in params && IsInstance(params[key], IntType) ==> n == AsInt(params[key])
    ensures !(key in params && IsInstance(params[key], IntType)) ==> n == default
  {
    match CheckVariable(params, key, IntType)
    case Ok(v) => AsInt(v)
    case Err(_) => default
  }

  /** The loop of `_SetParameters` that builds the scope: each permission is
      concatenated in turn, followed by "+" unless it is the last; a permission
      that is not a string makes the concatenation raise a TypeError. */
  function ScopeLoop(perms: seq<Value>, i: nat, acc: string): (r: Result<string>)
    requires i <= |perms|
    ensures r.Err? ==> r.fault.Raised?
    decreases |perms| - i
  {
    if i == |perms| then Ok(acc)
    else if !perms[i].VStr? then
      Err(Raised("can only concatenate str (not \"" + TypeName(perms[i]) + "\") to str"))
    else
      var acc' := acc + perms[i].s;
      ScopeLoop(perms, i + 1, if i < |perms| - 1 then acc' + [ScopeSeparator] else acc')
  }

  /** The permissions as strings, when every one is a string. */
  function Strings(perms: seq<Value>): (r: seq<string>)
    requires forall i :: 0 <= i < |perms| ==> perms[i].VStr?
    ensures |r| == |perms|
    ensures forall i :: 0 <= i < |perms| ==> r[i] == perms[i].s
  {
    if |perms| == 0 then [] else [perms[0].s] + Strings(perms[1..])
  }

  /** `_SetParameters` before its exceptions are wrapped: the seven required
      settings in order, then the two defaulted ones, then the scope. */
  function ReadParameters(params: map<string, Value>): (r: Result<Config>)
    ensures r.Err? ==> r.fault.Raised?
  {
    var maxThreads :- CheckVariable(params, "max_threads", IntType);
    var refreshToken :- CheckVariable(params, "refresh_token", StrType);
    var url :- CheckVariable(params, "browse_url", StrType);
    var authUrl :- CheckVariable(params, "auth_url", StrType);
    var clientId :- CheckVariable(params, "client_id", StrType);
    var permissions :- CheckVariable(params, "permissions", ListType);
    var redirectUri :- CheckVariable(params, "redirect_uri", StrType);
    var refreshInterval := IntOrDefault(params, "refresh_interval", DefaultRefreshInterval);
    var retryCount := IntOrDefault(params, "number_retry_connection", DefaultRetryCount);
    var scope :- ScopeLoop(permissions.items, 0, "");
    assert forall i :: 0 <= i < |permissions.items| ==> permissions.items[i].VStr? by {
      ScopeLoopSucceeds(permissions.items, 0, "");
    }
    Ok(Config(AsInt(maxThreads), refreshToken.s, url.s, authUrl.s, clientId.s,
              Strings(permissions.items), redirectUri.s, refreshInterval, retryCount, scope))
  }

  /** `_SetParameters`: every exception is re-raised with the prefix
      "Could not initialize parameters: ". */
  function SetParameters(params: map<string, Value>): (r: Result<Config>)
    ensures r.Ok? <==> ReadParameters(params).Ok?
    ensures r.Ok? ==> r.value == ReadParameters(params).value
    ensures r.Err? ==>
      && r.fault.Raised?
      && r.fault.message == InitPrefix + ReadParameters(params).fault.message
  {
    match ReadParameters(params)
    case Ok(c) => Ok(c)
    case Err(Raised(m)) => Err(Raised(InitPrefix + m))
    case Err(f) => Err(f)
  }

  // ---------------------------------------------------------------------------
  // Independent description and lemmas

  /** The keys of the required settings. */
  const RequiredKeys: set<string> := {
    "max_threads", "refresh_token", "browse_url", "auth_url", "client_id",
    "permissions", "redirect_uri"}

  /** `key` is present with a value of type `t`. */
  ghost predicate Has(params: map<string, Value>, key: string, t: PyType)
  {
    key in params && IsInstance(params[key], t)
  }

  /** A settings object the client accepts: every required key present with
      its type, and every permission a string. */
  ghost predicate Acceptable(params: map<string, Value>)
  {
    && Has(params, "max_threads", IntType)
    && Has(params, "refresh_token", StrType)
    && Has(params, "browse_url", StrType)
    && Has(params, "auth_url", StrType)
    && Has(params, "client_id", StrType)
    && Has(params, "permissions", ListType)
    && Has(params, "redirect_uri", StrType)
    && (forall i :: 0 <= i < |params["permissions"].items| ==> params["permissions"].items[i].VStr?)
  }

  lemma {:induction false} ScopeLoopSucceeds(perms: seq<Value>, i: nat, acc: string)
    requires i <= |perms|
    ensures ScopeLoop(perms, i, acc).Ok? <==> forall j :: i <= j < |perms| ==> perms[j].VStr?
    decreases |perms| - i
  {
    if i < |perms| && perms[i].VStr? {
      var acc' := acc + perms[i].s;
      ScopeLoopSucceeds(perms, i + 1, if i < |perms| - 1 then acc' + [ScopeSeparator] else acc');
    }
  }

  /** The scope loop computes `acc` followed by the permissions from `i` on,
      joined with "+". */
  lemma {:induction false} ScopeLoopIsJoin(perms: seq<Value>, i: nat, acc: string)
    requires i < |perms|
    requires forall j :: 0 <= j < |perms| ==> perms[j].VStr?
    ensures ScopeLoop(perms, i, acc) == Ok(acc + Join(Strings(perms)[i..], [ScopeSeparator]))
    decreases |perms| - i
  {
    var strs := Strings(perms);
    var acc' := acc + perms[i].s;
    if i == |perms| - 1 {
      assert strs[i..] == [perms[i].s];
    } else {
      ScopeLoopIsJoin(perms, i + 1, acc' + [ScopeSeparator]);
      assert ScopeLoop(perms, i, acc) == ScopeLoop(perms, i + 1, acc' + [ScopeSeparator]);
      var tail := strs[i..];
      assert |tail| >= 2 && tail[0] == perms[i].s;
      assert tail[1..] == strs[i + 1..];
      assert Join(tail, [ScopeSeparator]) ==
        tail[0] + [ScopeSeparator] + Join(tail[1..], [ScopeSeparator]);
      assert acc' + [ScopeSeparator] + Join(strs[i + 1..], [ScopeSeparator]) ==
        acc + (perms[i].s + [ScopeSeparator] + Join(strs[i + 1..], [ScopeSeparator]));
    }
  }

  /** The scope is the permissions joined by "+". */
  lemma ScopeIsJoinedPermissions(perms: seq<Value>)
    requires forall j :: 0 <= j < |perms| ==> perms[j].VStr?
    ensures ScopeLoop(perms, 0, "") == Ok(Join(Strings(perms), [ScopeSeparator]))
  {
    var strs := Strings(perms);
    if |perms| == 0 {
      assert strs == [];
      assert ScopeLoop(perms, 0, "") == Ok("");
    } else {
      ScopeLoopIsJoin(perms, 0, "");
      assert strs[0..] == strs;
      assert "" + Join(strs, [ScopeSeparator]) == Join(strs, [ScopeSeparator]);
    }
  }

  /** When no permission contains "+", splitting the scope on "+" gives the
      permissions back: there is no "+" before the first permission, after the
      last, or inside any. */
  lemma ScopeSplitsIntoPermissions(perms: seq<Value>)
    requires |perms| > 0
    requires forall j :: 0 <= j < |perms| ==> perms[j].VStr? && ScopeSeparator !in perms[j].s
    ensures ScopeLoop(perms, 0, "").Ok?
    ensures Split(ScopeLoop(perms, 0, "").value, ScopeSeparator) == Strings(perms)
  {
    ScopeIsJoinedPermissions(perms);
    SplitJoin(Strings(perms), ScopeSeparator);
  }

  /** Construction succeeds exactly for acceptable settings; a rejected one
      raises a message with the fixed prefix. */
  lemma SetParametersAccepts(params: map<string, Value>)
    ensures SetParameters(params).Ok? <==> Acceptable(params)
    ensures SetParameters(params).Err? ==>
      SetParameters(params).fault.Raised? &&
      |SetParameters(params).fault.message| >= |InitPrefix| &&
      SetParameters(params).fault.message[..|InitPrefix|] == InitPrefix
  {
    if Has(params, "permissions", ListType) {
      ScopeLoopSucceeds(params["permissions"].items, 0, "");
    }
  }

  /** An accepted configuration holds the given settings, the defaults 3600
      and 50 for absent or mistyped optional settings, and the "+"-joined
      scope. */
  lemma SetParametersContents(params: map<string, Value>)
    requires Acceptable(params)
    ensures SetParameters(params).Ok?
    ensures var c := SetParameters(params).value;
      && c.maxThreads == AsInt(params["max_threads"])
      && c.refreshToken == params["refresh_token"].s
      && c.url == params["browse_url"].s
      && c.authUrl == params["auth_url"].s
      && c.clientId == params["client_id"].s
      && c.redirectUri == params["redirect_uri"].s
      && |c.permissions| == |params["permissions"].items|
      && (forall i :: 0 <= i < |c.permissions| ==> c.permissions[i] == params["permissions"].items[i].s)
      && c.scope == Join(c.permissions, [ScopeSeparator])
      && (if Has(params, "refresh_interval", IntType)
          then c.refreshInterval == AsInt(params["refresh_interval"])
          else c.refreshInterval == 3600)
      && (if Has(params, "number_retry_connection", IntType)
          then c.retryCount == AsInt(params["number_retry_connection"])
          else c.retryCount == 50)
  {
    ScopeLoopSucceeds(params["permissions"].items, 0, "");
    ScopeIsJoinedPermissions(params["permissions"].items);
  }

  /** A missing required setting always makes construction raise. */
  lemma MissingRequiredKeyRejected(params: map<string, Value>, key: string)
    requires key in RequiredKeys && key !in params
    ensures SetParameters(params).Err?
  {
    SetParametersAccepts(params);
  }

  /** The first setting checked decides the message: a missing "max_threads"
      is reported by name. */
  lemma MissingMaxThreadsMessage(params: map<string, Value>)
    requires "max_threads" !in params
    ensures SetParameters(params) == Err(Raised(InitPrefix + MissingMessage("max_threads")))
  {
  }
}
