/**
  Parsed JSON values as the webhook sees them, with the few Python operations the
  handlers apply to them: `v[key]`, `d.get(key, default)`, truth testing and `for x in
  (v or [])`. An operation Python would raise on returns the exception's class.
*/
module Json {
  import opened Wrappers

  /** A JSON value. Objects are keyed by string; numbers are integers. */
  datatype Json =
    | Null
    | Bool(b: bool)
    | Num(n: int)
    | Str(s: string)
    | Arr(items: seq<Json>)
    | Obj(fields: map<string, Json>)

  /** The exceptions these operations raise. */
  datatype PyError = AttributeError | KeyError | TypeError

  /** Python truth testing: `None`, `False`, zero and empty containers are false. */
  predicate Truthy(v: Json) {
    match v
    case Null => false
    case Bool(b) => b
    case Num(n) => n != 0
    case Str(s) => s != []
    case Arr(items) => items != []
    case Obj(fields) => fields != map[]
  }

  /** `v[key]` with a string key: a dict lookup (KeyError when absent); any other value
      raises TypeError. */
  function Subscript(v: Json, key: string): (r: Result<Json, PyError>)
    ensures r.Success? <==> v.Obj? && key in v.fields
    ensures r.Success? ==> r.value == v.fields[key]
    ensures v.Obj? && key !in v.fields ==> r == Failure(KeyError)
    ensures !v.Obj? ==> r == Failure(TypeError)
  {
    match v
    case Obj(fields) => if key in fields then Success(fields[key]) else Failure(KeyError)
    case _ => Failure(TypeError)
  }

  /** Subscripts applied one after another: `v[k0][k1]...`. */
  function Path(v: Json, keys: seq<string>): Result<Json, PyError>
    decreases |keys|
  {
    if keys == [] then Success(v)
    else
      var w :- Subscript(v, keys[0]);
      Path(w, keys[1..])
  }

  /** The receiver of a `.get` call: only a dict has that method. */
  function AsDict(v: Json): (r: Result<map<string, Json>, PyError>)
    ensures r.Success? <==> v.Obj?
    ensures r.Success? ==> r.value == v.fields
    ensures r.Failure? ==> r.error == AttributeError
  {
    if v.Obj? then Success(v.fields) else Failure(AttributeError)
  }

  /** `d.get(key, default)` */
  function Get(d: map<string, Json>, key: string, default: Json): (r: Json)
    ensures key in d ==> r == d[key]
    ensures key !in d ==> r == default
  {
    if key in d then d[key] else default
  }

  /** The elements `for x in (v or [])` visits when the loop body calls `x.get`. A false
      value visits nothing and a list visits its items. A non-empty string or dict visits
      strings (its characters, its keys), and the body's first `.get` on one raises
      AttributeError before anything else happens, so that is raised here. A true number
      or boolean is not iterable. */
  function Items(v: Json): (r: Result<seq<Json>, PyError>)
    ensures !Truthy(v) ==> r == Success([])
    ensures v.Arr? ==> r == Success(v.items)
    ensures r.Success? ==> !Truthy(v) || v.Arr?
  {
    if !Truthy(v) then Success([])
    else match v
      case Arr(items) => Success(items)
      case Str(_) => Failure(AttributeError)
      case Obj(_) => Failure(AttributeError)
      case _ => Failure(TypeError)
  }

  /** A list built by a loop that appends `f(x)` for each `x` in turn: the first call
      that raises ends the loop with its exception. */
  function Collect<A, B>(f: A -> Result<B, PyError>, xs: seq<A>): (r: Result<seq<B>, PyError>)
    ensures r.Success? ==> |r.value| == |xs|
  {
    if xs == [] then Success([])
    else
      var init :- Collect(f, xs[..|xs| - 1]);
      var last :- f(xs[|xs| - 1]);
      Success(init + [last])
  }

  /** The loop step: collecting one more element extends a successful prefix. */
  lemma CollectSnoc<A, B>(f: A -> Result<B, PyError>, xs: seq<A>, n: nat)
    requires n < |xs|
    ensures Collect(f, xs[..n + 1]) ==
      (var init :- Collect(f, xs[..n]); var last :- f(xs[n]); Success(init + [last]))
  {
    assert xs[..n + 1][..n] == xs[..n];
  }

  /** The list exists exactly when every call succeeds, element i being the i-th call's
      result; otherwise the exception is that of the first call that raised. */
  lemma {:induction false} CollectMeaning<A, B>(f: A -> Result<B, PyError>, xs: seq<A>)
    ensures Collect(f, xs).Success? <==> forall i :: 0 <= i < |xs| ==> f(xs[i]).Success?
    ensures Collect(f, xs).Success? ==>
      forall i :: 0 <= i < |xs| ==> f(xs[i]) == Success(Collect(f, xs).value[i])
    ensures Collect(f, xs).Failure? ==>
      exists i :: 0 <= i < |xs| && f(xs[i]) == Failure(Collect(f, xs).error)
        && forall j :: 0 <= j < i ==> f(xs[j]).Success?
    decreases |xs|
  {
    if xs != [] {
      var n := |xs| - 1;
      var init := xs[..n];
      CollectMeaning(f, init);
      assert forall i :: 0 <= i < n ==> init[i] == xs[i];
      if Collect(f, init).Failure? {
        var i :| 0 <= i < n && f(init[i]) == Failure(Collect(f, init).error)
          && forall j :: 0 <= j < i ==> f(init[j]).Success?;
        assert f(xs[i]) == Failure(Collect(f, xs).error);
      } else if f(xs[n]).Failure? {
        assert f(xs[n]) == Failure(Collect(f, xs).error);
      }
    }
  }

  /** Once a prefix has raised, the whole list raises the same exception. */
  lemma {:induction false} CollectFailedPrefix<A, B>(f: A -> Result<B, PyError>, xs: seq<A>, n: nat)
    requires n <= |xs| && Collect(f, xs[..n]).Failure?
    ensures Collect(f, xs) == Collect(f, xs[..n])
    decreases |xs| - n
  {
    if n < |xs| {
      CollectSnoc(f, xs, n);
      CollectFailedPrefix(f, xs, n + 1);
    } else {
      assert xs[..n] == xs;
    }
  }
}
