/**
 * The per-request state the router reads and writes: the request's context
 * (values and the cancelled flag that signals a halted request), the URL
 * parameters stored in it, and the effective HTTP method.
 */
module Contexts {
  import opened Options
  import opened Paths

  /**
   * A context key. The router stores its parameters under a key of its own
   * unexported key type; keys of any other type never collide with it.
   */
  datatype Key = RouterKey(name: string) | ForeignKey(name: string)

  /** The key the URL parameters are stored under. */
  const ParamsKey: Key := RouterKey("params")

  /** A stored context value: a parameter map, or some other value. */
  datatype Value = ParamMap(params: map<string, string>) | Text(text: string)

  /**
   * A request context: the values stored along its chain of parents (the
   * nearest binding of a key wins) and whether it has been cancelled.
   */
  datatype Context = Context(cancelled: bool, values: map<Key, Value>)

  /** context.Background(): no values, never cancelled. */
  const Background: Context := Context(false, map[])

  /** ctx.Value(k): the nearest binding of k, if any. */
  function Lookup(c: Context, k: Key): (v: Option<Value>)
    ensures v.Some? <==> k in c.values
    ensures v.Some? ==> v.value == c.values[k]
  {
    if k in c.values then Some(c.values[k]) else None
  }

  /** ctx.Err() != nil: the request has been halted. */
  predicate Halted(c: Context)
  {
    c.cancelled
  }

  /**
   * context.WithValue(c, k, v): a child context that binds k to v, sees every
   * other binding of c, and is cancelled exactly when c is.
   */
  function WithValue(c: Context, k: Key, v: Value): (r: Context)
    ensures Lookup(r, k) == Some(v)
    ensures forall k' :: k' != k ==> Lookup(r, k') == Lookup(c, k')
    ensures Halted(r) == Halted(c)
  {
    Context(c.cancelled, c.values[k := v])
  }

  /**
   * context.WithCancel(c) followed by the cancel call: a child context with the
   * same values that is cancelled.
   */
  function Cancel(c: Context): (r: Context)
    ensures Halted(r)
    ensures forall k :: Lookup(r, k) == Lookup(c, k)
  {
    Context(true, c.values)
  }

  /**
   * Params: the parameter map stored under the router's key, or the empty map
   * when nothing is stored there or the stored value is not a parameter map.
   */
  function Params(c: Context): (m: map<string, string>)
    ensures Lookup(c, ParamsKey).Some? && Lookup(c, ParamsKey).value.ParamMap? ==> m == Lookup(c, ParamsKey).value.params
    ensures Lookup(c, ParamsKey).None? || !Lookup(c, ParamsKey).value.ParamMap? ==> m == map[]
  {
    match Lookup(c, ParamsKey)
    case Some(ParamMap(p)) => p
    case _ => map[]
  }

  /** Param: the named parameter, or "" when it is not bound (Go's zero value for a missing map key). */
  function Param(c: Context, key: string): (s: string)
    ensures key in Params(c) ==> s == Params(c)[key]
    ensures key !in Params(c) ==> s == ""
  {
    var m := Params(c);
    if key in m then m[key] else ""
  }

  /** Storing parameters makes exactly them visible to Params, and Param reads each one back. */
  lemma ParamsRoundTrip(c: Context, p: map<string, string>, key: string)
    ensures Params(WithValue(c, ParamsKey, ParamMap(p))) == p
    ensures Param(WithValue(c, ParamsKey, ParamMap(p)), key) == (if key in p then p[key] else "")
  {
  }

  /** A value stored under any other key leaves the parameters alone. */
  lemma OtherKeysKeepParams(c: Context, k: Key, v: Value)
    requires k != ParamsKey
    ensures Params(WithValue(c, k, v)) == Params(c)
  {
    assert Lookup(WithValue(c, k, v), ParamsKey) == Lookup(c, ParamsKey);
  }

  /** Halting does not change what the handlers can read, and cannot be undone by deriving a context. */
  lemma HaltIsPermanent(c: Context, k: Key, v: Value)
    ensures Params(Cancel(c)) == Params(c)
    ensures Halted(WithValue(Cancel(c), k, v))
  {
    assert Lookup(Cancel(c), ParamsKey) == Lookup(c, ParamsKey);
  }

  /** With no parameters bound, every Param is "" (the empty-params unit test); a bound one reads back. */
  lemma ParamExamples()
    ensures Param(Background, "foo") == ""
    ensures Param(WithValue(Background, ParamsKey, ParamMap(map["foo" := "bar"])), "foo") == "bar"
  {
    ParamsRoundTrip(Background, map["foo" := "bar"], "foo");
  }

  /**
   * An incoming request. Its method, path, content type and `_method` form
   * value are fixed; its context is replaced as the request passes through
   * the handlers.
   */
  class Request {
    const httpMethod: string
    const path: string
    const contentType: string
    /** r.FormValue("_method"), "" when absent; reading the body is not modelled. */
    const formMethod: string
    var ctx: Context

    constructor(httpMethod: string, path: string, contentType: string, formMethod: string)
      ensures this.httpMethod == httpMethod && this.path == path
      ensures this.contentType == contentType && this.formMethod == formMethod
      ensures ctx == Background
    {
      this.httpMethod := httpMethod;
      this.path := path;
      this.contentType := contentType;
      this.formMethod := formMethod;
      ctx := Background;
    }

    /** BindContext: the request now carries c. */
    method BindContext(c: Context)
      modifies this
      ensures ctx == c
    {
      ctx := c;
    }

    /**
     * HaltRequest: bind a cancellable child of the current context, then
     * cancel it. The request is halted and still sees every value.
     */
    method HaltRequest()
      modifies this
      ensures ctx == Cancel(old(ctx))
      ensures Halted(ctx) && Params(ctx) == Params(old(ctx))
    {
      var c := Cancel(ctx);
      HaltIsPermanent(ctx, ParamsKey, Text(""));
      BindContext(c);
    }
  }

  /** The content types for which the form is parsed and `_method` consulted. */
  predicate ParsesForm(contentType: string)
  {
    contentType == "multipart/form-data" || contentType == "text/html"
  }

  /**
   * getMethod: the upper-cased `_method` form value when the content type is
   * exactly one that parses the form and the value is non-empty; otherwise
   * the request's own method.
   */
  function GetMethod(requestMethod: string, contentType: string, formMethod: string): (m: string)
    ensures ParsesForm(contentType) && formMethod != "" ==> m == ToUpper(formMethod)
    ensures !ParsesForm(contentType) || formMethod == "" ==> m == requestMethod
  {
    if !ParsesForm(contentType) then requestMethod
    else if formMethod != "" then ToUpper(formMethod)
    else requestMethod
  }

  /** The override never lowers the case: an overriding method is always upper case. */
  lemma OverrideIsUpperCase(requestMethod: string, contentType: string, formMethod: string)
    requires ParsesForm(contentType) && formMethod != ""
    ensures ToUpper(GetMethod(requestMethod, contentType, formMethod)) == GetMethod(requestMethod, contentType, formMethod)
  {
    ToUpperIdempotent(formMethod);
  }

  /**
   * The `_method` unit tests: a POST with `_method` PATCH under text/html or
   * multipart/form-data is a PATCH; an empty `_method` keeps POST; any other
   * content type ignores the form.
   */
  lemma GetMethodExamples()
    ensures GetMethod("POST", "text/html", "PATCH") == "PATCH"
    ensures GetMethod("POST", "multipart/form-data", "patch") == "PATCH"
    ensures GetMethod("POST", "text/html", "") == "POST"
    ensures GetMethod("POST", "application/x-www-form-urlencoded", "PATCH") == "POST"
  {
    UpperPatch();
  }

  lemma UpperPatch()
    ensures ToUpper("PATCH") == "PATCH"
    ensures ToUpper("patch") == "PATCH"
  {
    var lower, upper := "patch", "PATCH";
    forall i | 0 <= i < 5
      ensures UpperChar(lower[i]) == upper[i] && UpperChar(upper[i]) == upper[i]
    {
    }
  }
}
