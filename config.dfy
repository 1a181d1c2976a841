/** The configuration manager: required-key validation, the value cache behind `get`, reload, and
    the two derived flags. The process environment is an `Environment` object whose variables the
    loader may extend. */
module AppConfig {
  import opened Base
  import opened Text

  /** os.environ: variable name to value. */
  type Environ = map<string, string>

  const ProjectKey := "GOOGLE_CLOUD_PROJECT"
  const LocationKey := "GOOGLE_CLOUD_LOCATION"
  const VertexKey := "GOOGLE_GENAI_USE_VERTEXAI"
  const MongoUrlKey := "MONGODB_URL"
  const MongoDatabaseKey := "MONGODB_DATABASE"
  const MongoCollectionKey := "MONGODB_COLLECTION"

  /** os.getenv(key). */
  function GetEnv(env: Environ, key: string): Option<string> {
    if key in env then Some(env[key]) else None
  }

  /** Python truthiness of an optional string: set and non-empty. */
  predicate Truthy(v: Option<string>) { v.Some? && v.value != [] }

  // ----- Loading -----

  /** load_dotenv(..., override=False): the file's variables are added, but a variable that is
      already set keeps its value. */
  function Loaded(env: Environ, dotenv: Environ): (r: Environ)
    ensures r.Keys == env.Keys + dotenv.Keys
  {
    dotenv + env
  }

  lemma LoadedKeepsExisting(env: Environ, dotenv: Environ)
    ensures forall k :: k in env ==> Loaded(env, dotenv)[k] == env[k]
    ensures forall k :: k in dotenv && k !in env ==> Loaded(env, dotenv)[k] == dotenv[k]
  {
  }

  // ----- Validation -----

  datatype Requirement = Requirement(key: string, description: string)

  /** The required keys, in the order the validator visits them. */
  const RequiredKeys: seq<Requirement> := [
    Requirement(ProjectKey, "Google Cloud Project ID"),
    Requirement(LocationKey, "Google Cloud Location"),
    Requirement(VertexKey, "Vertex AI usage flag")]

  /** Only the project and the location are checked for whitespace-only values. */
  predicate ChecksBlank(key: string) { key == ProjectKey || key == LocationKey }

  predicate IsMissing(env: Environ, req: Requirement) { !Truthy(GetEnv(env, req.key)) }

  predicate IsBlank(env: Environ, req: Requirement) {
    Truthy(GetEnv(env, req.key)) && ChecksBlank(req.key) && Strip(env[req.key]) == []
  }

  function MissingLine(req: Requirement): string {
    "  - " + req.description + " (" + req.key + ")"
  }

  function BlankLine(req: Requirement): string {
    "  - " + req.description + " (" + req.key + ") cannot be empty"
  }

  /** The lines for the requirements of `reqs` that are flagged, in order: what the validator's
      loop appends to one of its lists. */
  function Collect(flagged: Requirement -> bool, line: Requirement -> string, reqs: seq<Requirement>): (r: seq<string>)
    ensures |r| <= |reqs|
  {
    if reqs == [] then []
    else
      var last := reqs[|reqs| - 1];
      Collect(flagged, line, reqs[..|reqs| - 1]) + (if flagged(last) then [line(last)] else [])
  }

  /** The list is empty exactly when nothing is flagged, and it holds the line of every flagged
      requirement. */
  lemma {:induction false} CollectListsAll(flagged: Requirement -> bool, line: Requirement -> string, reqs: seq<Requirement>)
    ensures Collect(flagged, line, reqs) == [] <==> forall i :: 0 <= i < |reqs| ==> !flagged(reqs[i])
    ensures forall i :: 0 <= i < |reqs| && flagged(reqs[i]) ==> line(reqs[i]) in Collect(flagged, line, reqs)
  {
    if reqs != [] {
      var init := reqs[..|reqs| - 1];
      CollectListsAll(flagged, line, init);
      forall i | 0 <= i < |init| ensures init[i] == reqs[i] { }
    }
  }

  /** One more requirement visited. */
  lemma CollectStep(flagged: Requirement -> bool, line: Requirement -> string, reqs: seq<Requirement>, i: nat)
    requires i < |reqs|
    ensures Collect(flagged, line, reqs[..i + 1])
         == Collect(flagged, line, reqs[..i]) + (if flagged(reqs[i]) then [line(reqs[i])] else [])
  {
    assert reqs[..i + 1][..i] == reqs[..i];
  }

  /** The `missing` list after visiting `reqs`. */
  function Missing(env: Environ, reqs: seq<Requirement>): seq<string> {
    Collect(req => IsMissing(env, req), MissingLine, reqs)
  }

  /** The `invalid` list after visiting `reqs`. */
  function Blank(env: Environ, reqs: seq<Requirement>): seq<string> {
    Collect(req => IsBlank(env, req), BlankLine, reqs)
  }

  /** Visiting one more requirement adds its line to at most one of the two lists. */
  lemma VisitStep(env: Environ, reqs: seq<Requirement>, i: nat)
    requires i < |reqs|
    ensures Missing(env, reqs[..i + 1])
         == Missing(env, reqs[..i]) + (if IsMissing(env, reqs[i]) then [MissingLine(reqs[i])] else [])
    ensures Blank(env, reqs[..i + 1])
         == Blank(env, reqs[..i]) + (if IsBlank(env, reqs[i]) then [BlankLine(reqs[i])] else [])
  {
    CollectStep(req => IsMissing(env, req), MissingLine, reqs, i);
    CollectStep(req => IsBlank(env, req), BlankLine, reqs, i);
  }

  /** How the validator's branches decide the two flags of one requirement. */
  lemma VisitFlags(env: Environ, req: Requirement)
    ensures !Truthy(GetEnv(env, req.key)) ==> IsMissing(env, req) && !IsBlank(env, req)
    ensures Truthy(GetEnv(env, req.key)) ==>
      !IsMissing(env, req)
      && (IsBlank(env, req) <==> ChecksBlank(req.key) && Strip(GetEnv(env, req.key).value) == [])
  {
  }

  /** '\n'.join(parts). */
  function JoinLines(parts: seq<string>): (r: string)
    ensures parts != [] ==> |r| >= |parts[0]| && r[..|parts[0]|] == parts[0]
  {
    if parts == [] then []
    else if |parts| == 1 then parts[0]
    else parts[0] + "\n" + JoinLines(parts[1..])
  }

  /** `p in s` for strings: `p` occurs in `s` as a contiguous piece. */
  ghost predicate Occurs(p: string, s: string) {
    exists j :: OccursAt(p, s, j)
  }

  predicate OccursAt(p: string, s: string, j: int) {
    0 <= j <= |s| - |p| && s[j..j + |p|] == p
  }

  lemma OccursAfter(p: string, a: string, s: string)
    requires Occurs(p, s)
    ensures Occurs(p, a + s)
  {
    var j :| OccursAt(p, s, j);
    assert (a + s)[|a| + j..|a| + j + |p|] == s[j..j + |p|];
    assert OccursAt(p, a + s, |a| + j);
  }

  /** Every part occurs in the joined text. */
  lemma {:induction false} JoinLinesHoldsParts(parts: seq<string>)
    ensures forall i :: 0 <= i < |parts| ==> Occurs(parts[i], JoinLines(parts))
  {
    if parts != [] {
      var r := JoinLines(parts);
      assert OccursAt(parts[0], r, 0);
      if |parts| > 1 {
        var rest := JoinLines(parts[1..]);
        JoinLinesHoldsParts(parts[1..]);
        assert r == (parts[0] + "\n") + rest;
        forall i | 1 <= i < |parts| ensures Occurs(parts[i], r) {
          assert parts[i] == parts[1..][i - 1];
          OccursAfter(parts[i], parts[0] + "\n", rest);
        }
      }
    }
  }

  const ErrorHeader := "Configuration errors found:"
  const ErrorFooter := "\nPlease set these in your .env file or environment variables."

  const MissingHeading := "\nMissing required values:"
  const InvalidHeading := "\nInvalid values:"

  /** error_parts as _validate assembles it. */
  function ErrorParts(missing: seq<string>, invalid: seq<string>): seq<string> {
    var p0 := [ErrorHeader];
    var p1 := if missing != [] then p0 + ([MissingHeading] + missing) else p0;
    var p2 := if invalid != [] then p1 + ([InvalidHeading] + invalid) else p1;
    p2 + [ErrorFooter]
  }

  /** The ConfigurationError message _validate raises, if it raises. */
  function ValidationError(env: Environ): Option<string> {
    var missing := Missing(env, RequiredKeys);
    var invalid := Blank(env, RequiredKeys);
    if missing == [] && invalid == [] then None else Some(JoinLines(ErrorParts(missing, invalid)))
  }

  /** What each required key's flags mean: the Vertex flag is never checked for blankness. */
  lemma RequiredFlags(env: Environ)
    ensures IsMissing(env, RequiredKeys[0]) <==> !Truthy(GetEnv(env, ProjectKey))
    ensures IsMissing(env, RequiredKeys[1]) <==> !Truthy(GetEnv(env, LocationKey))
    ensures IsMissing(env, RequiredKeys[2]) <==> !Truthy(GetEnv(env, VertexKey))
    ensures IsBlank(env, RequiredKeys[0]) <==> ProjectKey in env && env[ProjectKey] != [] && Strip(env[ProjectKey]) == []
    ensures IsBlank(env, RequiredKeys[1]) <==> LocationKey in env && env[LocationKey] != [] && Strip(env[LocationKey]) == []
    ensures !IsBlank(env, RequiredKeys[2])
  {
    assert !ChecksBlank(VertexKey) by {
      assert |VertexKey| != |ProjectKey| && |VertexKey| != |LocationKey|;
    }
  }

  /** Validation fails exactly when a required key is unset or empty, or the project or location
      is whitespace only. */
  lemma ValidationFailsIff(env: Environ)
    ensures ValidationError(env).Some? <==>
      || !Truthy(GetEnv(env, ProjectKey)) || !Truthy(GetEnv(env, LocationKey)) || !Truthy(GetEnv(env, VertexKey))
      || (ProjectKey in env && env[ProjectKey] != [] && Strip(env[ProjectKey]) == [])
      || (LocationKey in env && env[LocationKey] != [] && Strip(env[LocationKey]) == [])
  {
    NothingMissingIff(env);
    NothingBlankIff(env);
    RequiredFlags(env);
  }

  lemma NothingMissingIff(env: Environ)
    ensures Missing(env, RequiredKeys) == [] <==>
      !IsMissing(env, RequiredKeys[0]) && !IsMissing(env, RequiredKeys[1]) && !IsMissing(env, RequiredKeys[2])
  {
    CollectListsAll(req => IsMissing(env, req), MissingLine, RequiredKeys);
    assert (forall i :: 0 <= i < |RequiredKeys| ==> !IsMissing(env, RequiredKeys[i]))
      <==> !IsMissing(env, RequiredKeys[0]) && !IsMissing(env, RequiredKeys[1]) && !IsMissing(env, RequiredKeys[2]);
  }

  lemma NothingBlankIff(env: Environ)
    ensures Blank(env, RequiredKeys) == [] <==>
      !IsBlank(env, RequiredKeys[0]) && !IsBlank(env, RequiredKeys[1]) && !IsBlank(env, RequiredKeys[2])
  {
    CollectListsAll(req => IsBlank(env, req), BlankLine, RequiredKeys);
    assert (forall i :: 0 <= i < |RequiredKeys| ==> !IsBlank(env, RequiredKeys[i]))
      <==> !IsBlank(env, RequiredKeys[0]) && !IsBlank(env, RequiredKeys[1]) && !IsBlank(env, RequiredKeys[2]);
  }

  /** The message opens with the summary line and names every missing key. */
  lemma ValidationMessage(env: Environ)
    ensures ValidationError(env).Some? ==>
      var msg := ValidationError(env).value;
      |msg| >= |ErrorHeader| && msg[..|ErrorHeader|] == ErrorHeader
    ensures forall i :: 0 <= i < |RequiredKeys| && IsMissing(env, RequiredKeys[i]) ==>
      MissingLine(RequiredKeys[i]) in ErrorParts(Missing(env, RequiredKeys), Blank(env, RequiredKeys))
    ensures forall i :: 0 <= i < |RequiredKeys| && IsMissing(env, RequiredKeys[i]) ==>
      ValidationError(env).Some? && Occurs(MissingLine(RequiredKeys[i]), ValidationError(env).value)
    ensures forall i :: 0 <= i < |RequiredKeys| && IsBlank(env, RequiredKeys[i]) ==>
      ValidationError(env).Some? && Occurs(BlankLine(RequiredKeys[i]), ValidationError(env).value)
  {
    var missing := Missing(env, RequiredKeys);
    var invalid := Blank(env, RequiredKeys);
    var parts := ErrorParts(missing, invalid);
    CollectListsAll(req => IsMissing(env, req), MissingLine, RequiredKeys);
    CollectListsAll(req => IsBlank(env, req), BlankLine, RequiredKeys);
    ErrorPartsHoldLines(missing, invalid);
    MessageHoldsLines(missing, invalid);
  }

  /** The joined message holds every missing line and every invalid line. */
  lemma MessageHoldsLines(missing: seq<string>, invalid: seq<string>)
    ensures forall m :: m in missing ==> Occurs(m, JoinLines(ErrorParts(missing, invalid)))
    ensures forall b :: b in invalid ==> Occurs(b, JoinLines(ErrorParts(missing, invalid)))
  {
    var parts := ErrorParts(missing, invalid);
    ErrorPartsHoldLines(missing, invalid);
    JoinLinesHoldsParts(parts);
    forall m | m in parts ensures Occurs(m, JoinLines(parts)) {
      var k :| 0 <= k < |parts| && parts[k] == m;
    }
  }

  /** error_parts holds every missing line and every invalid line. */
  lemma ErrorPartsHoldLines(missing: seq<string>, invalid: seq<string>)
    ensures forall m :: m in missing ==> m in ErrorParts(missing, invalid)
    ensures forall b :: b in invalid ==> b in ErrorParts(missing, invalid)
  {
    var parts := ErrorParts(missing, invalid);
    var p1 := if missing != [] then [ErrorHeader] + ([MissingHeading] + missing) else [ErrorHeader];
    var p2 := if invalid != [] then p1 + ([InvalidHeading] + invalid) else p1;
    assert parts == p2 + [ErrorFooter];
    forall k | 0 <= k < |missing| ensures missing[k] in parts {
      assert parts[2 + k] == p2[2 + k] == p1[2 + k] == missing[k];
    }
    forall k | 0 <= k < |invalid| ensures invalid[k] in parts {
      assert parts[|p1| + 1 + k] == p2[|p1| + 1 + k] == invalid[k];
    }
  }

  /** The Vertex flag is only checked for presence: a whitespace-only flag passes validation
      (and then reads as false). */
  lemma BlankFlagPasses(env: Environ)
    requires ProjectKey in env && Strip(env[ProjectKey]) != []
    requires LocationKey in env && Strip(env[LocationKey]) != []
    requires VertexKey in env && env[VertexKey] == " "
    ensures ValidationError(env).None?
    ensures !UseVertexAi(env)
  {
    assert Strip([]) == [];
    assert env[ProjectKey] != [] && env[LocationKey] != [];
    ValidationPasses(env);
    SpaceFlagReadsFalse(env);
  }

  /** The direction of ValidationFailsIff that lets a configuration through. */
  lemma ValidationPasses(env: Environ)
    requires Truthy(GetEnv(env, ProjectKey)) && Truthy(GetEnv(env, LocationKey)) && Truthy(GetEnv(env, VertexKey))
    requires Strip(env[ProjectKey]) != [] && Strip(env[LocationKey]) != []
    ensures ValidationError(env).None?
  {
    ValidationFailsIff(env);
  }

  lemma SpaceFlagReadsFalse(env: Environ)
    requires VertexKey in env && env[VertexKey] == " "
    ensures !UseVertexAi(env)
  {
    assert AsciiLower(" ") == " ";
  }

  // ----- Derived flags -----

  const VertexTrueValues: seq<string> := ["1", "true", "yes", "on"]

  /** use_vertex_ai: the lower-cased flag (unset reads as "0") is one of the true spellings. */
  function UseVertexAi(env: Environ): (r: bool)
    ensures r <==> VertexKey in env && AsciiLower(env[VertexKey]) in VertexTrueValues
    ensures VertexKey !in env ==> !r
    ensures r ==> VertexKey in env && 1 <= |env[VertexKey]| <= 4
  {
    var value := if VertexKey in env then env[VertexKey] else "0";
    assert AsciiLower("0") == "0";
    assert |AsciiLower(value)| == |value|;
    AsciiLower(value) in VertexTrueValues
  }

  /** The flag ignores ASCII case: "TRUE", "Yes" and "ON" read as their lower-case spellings, and
      each of those reads true. */
  lemma VertexFlagIgnoresCase(env: Environ, v: string)
    ensures UseVertexAi(env[VertexKey := AsciiUpper(v)]) == UseVertexAi(env[VertexKey := v])
    ensures v in VertexTrueValues ==> UseVertexAi(env[VertexKey := v])
  {
    LowerIgnoresCase(v);
    if v in VertexTrueValues {
      assert AsciiLower(v) == v;
    }
  }

  /** A flag with no upper-case ASCII letter reads true exactly when it is one of the four
      spellings: every other value, "0", "no", "false", "off" and the empty string included, reads
      false. */
  lemma LowerCaseFlagExact(env: Environ, v: string)
    requires forall k :: 0 <= k < |v| ==> !IsAsciiUpper(v[k])
    ensures UseVertexAi(env[VertexKey := v]) <==> v in VertexTrueValues
  {
    assert AsciiLower(v) == v;
  }

  /** The usual spellings of "off" read false, as does an unset flag. */
  lemma VertexFlagFalseSpellings(env: Environ)
    ensures !UseVertexAi(env - {VertexKey})
    ensures !UseVertexAi(env[VertexKey := "0"]) && !UseVertexAi(env[VertexKey := "no"])
    ensures !UseVertexAi(env[VertexKey := "false"]) && !UseVertexAi(env[VertexKey := "off"])
    ensures !UseVertexAi(env[VertexKey := ""])
  {
    LowerCaseFlagExact(env, "0");
    LowerCaseFlagExact(env, "no");
    LowerCaseFlagExact(env, "false");
    LowerCaseFlagExact(env, "off");
    LowerCaseFlagExact(env, "");
  }

  /** all([...]) over optional strings. */
  function All(vs: seq<Option<string>>): (r: bool)
    ensures r <==> forall i :: 0 <= i < |vs| ==> Truthy(vs[i])
  {
    if vs == [] then true else Truthy(vs[0]) && All(vs[1..])
  }

  /** mongodb_configured: URL, database and collection are all set and non-empty. */
  function MongodbConfigured(env: Environ): (r: bool)
    ensures r <==> && MongoUrlKey in env && env[MongoUrlKey] != []
                   && MongoDatabaseKey in env && env[MongoDatabaseKey] != []
                   && MongoCollectionKey in env && env[MongoCollectionKey] != []
  {
    var vs := [GetEnv(env, MongoUrlKey), GetEnv(env, MongoDatabaseKey), GetEnv(env, MongoCollectionKey)];
    assert All(vs) <==> Truthy(vs[0]) && Truthy(vs[1]) && Truthy(vs[2]);
    All(vs)
  }

  // ----- get -----

  const MissingKeyFooter := "\nPlease set this value in your .env file or environment variables."

  datatype GetOutcome = GetOutcome(result: Result<Option<string>, string>, cache: map<string, string>)

  /** get(key, default, required) as a function of the cache and the environment. */
  function GetSpec(cache: map<string, string>, env: Environ, key: string, default: Option<string>, required: bool)
    : GetOutcome
  {
    if key in cache then GetOutcome(Ok(Some(cache[key])), cache)
    else
      var value := if key in env then Some(env[key]) else default;
      if required && value.None? then
        GetOutcome(Err("Missing required configuration key: " + key + MissingKeyFooter), cache)
      else if value.Some? then GetOutcome(Ok(value), cache[key := value.value])
      else GetOutcome(Ok(None), cache)
  }

  /** A cached value is returned without consulting the environment, the default or `required`. */
  lemma CacheHitIgnoresEnvironment(cache: map<string, string>, env1: Environ, env2: Environ, key: string,
                                   d1: Option<string>, d2: Option<string>, req1: bool, req2: bool)
    requires key in cache
    ensures GetSpec(cache, env1, key, d1, req1) == GetSpec(cache, env2, key, d2, req2)
    ensures GetSpec(cache, env1, key, d1, req1) == GetOutcome(Ok(Some(cache[key])), cache)
  {
  }

  /** get raises exactly when the key is neither cached nor set, no default is given and it is
      required; so a non-None default means it never raises. */
  lemma GetRaisesIff(cache: map<string, string>, env: Environ, key: string, default: Option<string>, required: bool)
    ensures GetSpec(cache, env, key, default, required).result.Err? <==>
      key !in cache && key !in env && default.None? && required
    ensures default.Some? ==> GetSpec(cache, env, key, default, required).result.Ok?
  {
  }

  /** Only non-None values enter the cache, and a returned value is cached. */
  lemma GetCachesValues(cache: map<string, string>, env: Environ, key: string, default: Option<string>, required: bool)
    ensures var o := GetSpec(cache, env, key, default, required);
      && (o.result == Ok(None) || o.result.Err? ==> o.cache == cache)
      && (o.result.Ok? && o.result.value.Some? ==> o.cache == cache[key := o.result.value.value])
      && (forall k :: k in cache ==> k in o.cache && o.cache[k] == cache[k])
  {
  }

  /** A default given for an absent key is cached, and a later call returns it even when it
      passes a different default (or is required). */
  lemma DefaultSticks(cache: map<string, string>, env: Environ, key: string, d1: string, d2: Option<string>, required: bool)
    requires key !in cache && key !in env
    ensures var first := GetSpec(cache, env, key, Some(d1), false);
      && first.result == Ok(Some(d1))
      && GetSpec(first.cache, env, key, d2, required).result == Ok(Some(d1))
  {
  }

  /** The process environment. */
  class Environment {
    var vars: Environ

    constructor(vars: Environ)
      ensures this.vars == vars
    {
      this.vars := vars;
    }
  }

  /** Config: the single configuration object. */
  class Config {
    const environ: Environment
    /** _cache */
    var cache: map<string, string>
    /** _initialized */
    var initialized: bool

    /** The instance before __init__ has run. */
    constructor(environ: Environment)
      ensures this.environ == environ && cache == map[] && !initialized
    {
      this.environ := environ;
      cache := map[];
      initialized := false;
    }

    /** __init__: runs once. It loads the variables of the .env file found (given here as
        `dotenv`), empties the cache, validates, and only then marks the object initialised; a
        failed validation leaves it uninitialised. */
    method Init(dotenv: Environ) returns (err: Option<string>)
      modifies this, environ
      ensures old(initialized) ==>
        err.None? && initialized && cache == old(cache) && environ.vars == old(environ.vars)
      ensures !old(initialized) ==>
        && environ.vars == Loaded(old(environ.vars), dotenv)
        && cache == map[]
        && err == ValidationError(environ.vars)
        && initialized == err.None?
    {
      if initialized {
        return None;
      }
      environ.vars := Loaded(environ.vars, dotenv);
      cache := map[];
      err := Validate();
      if err.Some? {
        return;
      }
      initialized := true;
    }

    /** _validate: visits the required keys, collecting the missing and the whitespace-only ones,
        and builds the error message when either list is non-empty. */
    method Validate() returns (err: Option<string>)
      ensures err == ValidationError(environ.vars)
    {
      var env := environ.vars;
      var missing: seq<string> := [];
      var invalid: seq<string> := [];
      var i := 0;
      while i < |RequiredKeys|
        invariant 0 <= i <= |RequiredKeys|
        invariant missing == Missing(env, RequiredKeys[..i])
        invariant invalid == Blank(env, RequiredKeys[..i])
      {
        var req := RequiredKeys[i];
        VisitStep(env, RequiredKeys, i);
        VisitFlags(env, req);
        var value := GetEnv(env, req.key);
        if !Truthy(value) {
          missing := missing + [MissingLine(req)];
        } else if ChecksBlank(req.key) {
          if Strip(value.value) == [] {
            invalid := invalid + [BlankLine(req)];
          }
        }
        i := i + 1;
      }
      assert RequiredKeys[..i] == RequiredKeys;
      if missing == [] && invalid == [] {
        return None;
      }
      var errorParts := [ErrorHeader];
      if missing != [] {
        errorParts := errorParts + ([MissingHeading] + missing);
      }
      if invalid != [] {
        errorParts := errorParts + ([InvalidHeading] + invalid);
      }
      errorParts := errorParts + [ErrorFooter];
      return Some(JoinLines(errorParts));
    }

    /** get: a cached value first; otherwise the environment, then the default; raises when
        required and still None; caches what it returns unless that is None. */
    method Get(key: string, default: Option<string>, required: bool) returns (r: Result<Option<string>, string>)
      modifies this
      ensures var o := GetSpec(old(cache), environ.vars, key, default, required);
        r == o.result && cache == o.cache
      ensures initialized == old(initialized)
    {
      if key in cache {
        return Ok(Some(cache[key]));
      }
      var value := GetEnv(environ.vars, key);
      if value.None? {
        value := default;
      }
      if required && value.None? {
        return Err("Missing required configuration key: " + key + MissingKeyFooter);
      }
      if value.Some? {
        cache := cache[key := value.value];
      }
      return Ok(value);
    }

    /** reload: clears the cache, clears the initialised mark, and runs __init__ again. */
    method Reload(dotenv: Environ) returns (err: Option<string>)
      modifies this, environ
      ensures environ.vars == Loaded(old(environ.vars), dotenv)
      ensures cache == map[]
      ensures err == ValidationError(environ.vars) && initialized == err.None?
    {
      cache := map[];
      initialized := false;
      err := Init(dotenv);
    }
  }
}
