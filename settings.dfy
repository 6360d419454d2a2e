/** The manager's configuration (src/flamenco-manager/flamenco/settings.go):
    defaults overridden by the YAML file, trailing-slash trimming of path
    replacements, the duplicate-variable check, and the transposition of the
    variable matrices from name→platform→value to platform→name→value. */
module Settings {
  import opened Common

  /** A variable matrix: outer key → inner key → value. */
  type Matrix = map<string, map<string, string>>

  // ---------------------------------------------------------------------
  // transposeVariableMatrix

  /** The value at m[a][b], if there is one. */
  function Get(m: Matrix, a: string, b: string): Option<string>
  {
    if a in m && b in m[a] then Some(m[a][b]) else None
  }

  /** Every inner map holds at least one value. */
  ghost predicate NoEmptyRows(m: Matrix)
  {
    forall a :: a in m ==> exists b :: b in m[a]
  }

  /** `out` holds m[v][p] at out[p][v] for exactly the pairs of `m` whose outer
      key is in `done`, and no empty inner map. */
  ghost predicate TransposeOver(out: Matrix, m: Matrix, done: set<string>)
  {
    && (forall p, v :: Get(out, p, v) == if v in done then Get(m, v, p) else None)
    && NoEmptyRows(out)
  }

  ghost predicate IsTransposeOf(out: Matrix, m: Matrix)
  {
    TransposeOver(out, m, m.Keys)
  }

  /** The inner loop of transposeVariableMatrix: for each platform of one
      variable, create the platform's map when missing and store the value. */
  method AddColumn(out: Matrix, varname: string, perplatform: map<string, string>) returns (out': Matrix)
    requires NoEmptyRows(out)
    ensures NoEmptyRows(out')
    ensures forall p, v :: Get(out', p, v) == if v == varname && p in perplatform then Some(perplatform[p]) else Get(out, p, v)
  {
    out' := out;
    var todo := perplatform.Keys;
    while todo != {}
      invariant todo <= perplatform.Keys
      invariant NoEmptyRows(out')
      invariant forall p, v :: Get(out', p, v) ==
                  if v == varname && p in perplatform && p !in todo then Some(perplatform[p]) else Get(out, p, v)
      decreases |todo|
    {
      var platform :| platform in todo;
      out' := StoreValue(out', platform, varname, perplatform[platform]);
      todo := todo - {platform};
    }
  }

  /** `(*out)[platform][varname] = value`, creating the inner map when it is nil. */
  function StoreValue(out: Matrix, platform: string, varname: string, value: string): (r: Matrix)
    requires NoEmptyRows(out)
    ensures NoEmptyRows(r)
    ensures forall p, v :: Get(r, p, v) == if p == platform && v == varname then Some(value) else Get(out, p, v)
  {
    var row := if platform in out then out[platform] else map[];
    var r := out[platform := row[varname := value]];
    assert varname in r[platform];
    r
  }

  /** transposeVariableMatrix: a fresh matrix holding in[v][p] at out[p][v],
      and nothing else. */
  method TransposeVariableMatrix(m: Matrix) returns (out: Matrix)
    ensures IsTransposeOf(out, m)
  {
    out := map[];
    var todo := m.Keys;
    while todo != {}
      invariant todo <= m.Keys
      invariant TransposeOver(out, m, m.Keys - todo)
      decreases |todo|
    {
      var varname :| varname in todo;
      out := AddColumn(out, varname, m[varname]);
      todo := todo - {varname};
    }
    assert m.Keys - todo == m.Keys;
  }

  /** Matrices that agree on every pair and have no empty inner map are equal. */
  lemma SamePairsEqual(a: Matrix, b: Matrix)
    requires NoEmptyRows(a) && NoEmptyRows(b)
    requires forall x, y :: Get(a, x, y) == Get(b, x, y)
    ensures a == b
  {
    forall x | x in a
      ensures x in b && a[x] == b[x]
    {
      var y :| y in a[x];
      assert Get(a, x, y).Some?;
      forall z | z in a[x] || z in b[x]
        ensures z in a[x] && z in b[x] && a[x][z] == b[x][z]
      {
        assert Get(a, x, z) == Get(b, x, z);
      }
    }
    forall x | x in b
      ensures x in a
    {
      var y :| y in b[x];
      assert Get(b, x, y).Some?;
    }
  }

  /** The transpose is unique: whatever order the maps are visited in, the
      result is the same. */
  lemma TransposeUnique(m: Matrix, a: Matrix, b: Matrix)
    requires IsTransposeOf(a, m) && IsTransposeOf(b, m)
    ensures a == b
  {
    forall x, y
      ensures Get(a, x, y) == Get(b, x, y)
    {
      assert Get(a, x, y) == Get(m, y, x);
    }
    SamePairsEqual(a, b);
  }

  /** The matrix without its empty inner maps. */
  ghost function NonEmptyRows(m: Matrix): (r: Matrix)
    ensures NoEmptyRows(r)
  {
    map v | v in m && exists p :: p in m[v] :: m[v]
  }

  /** Transposing twice gives back the matrix, less its empty rows. */
  lemma TransposeTwice(m: Matrix, t: Matrix, tt: Matrix)
    requires IsTransposeOf(t, m) && IsTransposeOf(tt, t)
    ensures tt == NonEmptyRows(m)
  {
    var n := NonEmptyRows(m);
    forall x, y
      ensures Get(tt, x, y) == Get(n, x, y)
    {
      if y in t {
        assert Get(tt, x, y) == Get(t, y, x) == Get(m, x, y);
        if x in m && y in m[x] {
          assert x in n;
        }
      } else {
        assert Get(t, y, x) == None;
        assert Get(m, x, y) == None;
      }
    }
    SamePairsEqual(tt, n);
  }

  // ---------------------------------------------------------------------
  // GetConf

  /** The configuration fields the manager's logic reads. */
  datatype Conf = Conf(
    downloadTaskSleep: Duration,
    downloadTaskRecheckThrottle: Duration,
    variablesByVarname: Matrix,
    variablesByPlatform: Matrix,
    pathReplacementByVarname: Matrix,
    pathReplacementByPlatform: Matrix,
    taskUpdatePushMaxInterval: Duration,
    taskUpdatePushMaxCount: int,
    cancelTaskFetchInterval: Duration,
    activeTaskTimeoutInterval: Duration,
    activeWorkerTimeoutInterval: Duration,
    taskCleanupMaxAge: Duration)

  /** The defaults GetConf starts from. */
  const Defaults := Conf(
    downloadTaskSleep := 300 * Second,
    downloadTaskRecheckThrottle := 10 * Second,
    variablesByVarname := map[],
    variablesByPlatform := map[],
    pathReplacementByVarname := map[],
    pathReplacementByPlatform := map[],
    taskUpdatePushMaxInterval := 30 * Second,
    taskUpdatePushMaxCount := 10,
    cancelTaskFetchInterval := 10 * Second,
    activeTaskTimeoutInterval := 1 * Minute,
    activeWorkerTimeoutInterval := 15 * Minute,
    taskCleanupMaxAge := 14 * 24 * Hour)

  /** The parsed flamenco-manager.yaml: each key, when present. */
  datatype YamlConf = YamlConf(
    downloadTaskSleep: Option<Duration>,
    downloadTaskRecheckThrottle: Option<Duration>,
    variables: Option<Matrix>,
    pathReplacement: Option<Matrix>,
    taskUpdatePushMaxInterval: Option<Duration>,
    taskUpdatePushMaxCount: Option<int>,
    cancelTaskFetchMaxInterval: Option<Duration>,
    activeTaskTimeoutInterval: Option<Duration>,
    activeWorkerTimeoutInterval: Option<Duration>,
    taskCleanupMaxAge: Option<Duration>)

  /** yaml.Unmarshal into a Conf holding the defaults: keys that are present
      replace the default, absent keys keep it. */
  function Unmarshal(c: Conf, y: YamlConf): Conf
  {
    c.(downloadTaskSleep := SetOr(y.downloadTaskSleep, c.downloadTaskSleep),
       downloadTaskRecheckThrottle := SetOr(y.downloadTaskRecheckThrottle, c.downloadTaskRecheckThrottle),
       variablesByVarname := SetOr(y.variables, c.variablesByVarname),
       pathReplacementByVarname := SetOr(y.pathReplacement, c.pathReplacementByVarname),
       taskUpdatePushMaxInterval := SetOr(y.taskUpdatePushMaxInterval, c.taskUpdatePushMaxInterval),
       taskUpdatePushMaxCount := SetOr(y.taskUpdatePushMaxCount, c.taskUpdatePushMaxCount),
       cancelTaskFetchInterval := SetOr(y.cancelTaskFetchMaxInterval, c.cancelTaskFetchInterval),
       activeTaskTimeoutInterval := SetOr(y.activeTaskTimeoutInterval, c.activeTaskTimeoutInterval),
       activeWorkerTimeoutInterval := SetOr(y.activeWorkerTimeoutInterval, c.activeWorkerTimeoutInterval),
       taskCleanupMaxAge := SetOr(y.taskCleanupMaxAge, c.taskCleanupMaxAge))
  }

  /** Every key the YAML file sets replaces its default; every key it leaves
      out keeps the default GetConf starts from. */
  lemma YamlOverridesDefaults(y: YamlConf)
    ensures var c := Unmarshal(Defaults, y);
      && c.downloadTaskSleep == (if y.downloadTaskSleep.Some? then y.downloadTaskSleep.value else 300 * Second)
      && c.downloadTaskRecheckThrottle
         == (if y.downloadTaskRecheckThrottle.Some? then y.downloadTaskRecheckThrottle.value else 10 * Second)
      && c.variablesByVarname == (if y.variables.Some? then y.variables.value else map[])
      && c.pathReplacementByVarname == (if y.pathReplacement.Some? then y.pathReplacement.value else map[])
      && c.taskUpdatePushMaxInterval
         == (if y.taskUpdatePushMaxInterval.Some? then y.taskUpdatePushMaxInterval.value else 30 * Second)
      && c.taskUpdatePushMaxCount == (if y.taskUpdatePushMaxCount.Some? then y.taskUpdatePushMaxCount.value else 10)
      && c.cancelTaskFetchInterval
         == (if y.cancelTaskFetchMaxInterval.Some? then y.cancelTaskFetchMaxInterval.value else 10 * Second)
      && c.activeTaskTimeoutInterval
         == (if y.activeTaskTimeoutInterval.Some? then y.activeTaskTimeoutInterval.value else Minute)
      && c.activeWorkerTimeoutInterval
         == (if y.activeWorkerTimeoutInterval.Some? then y.activeWorkerTimeoutInterval.value else 15 * Minute)
      && c.taskCleanupMaxAge == (if y.taskCleanupMaxAge.Some? then y.taskCleanupMaxAge.value else 14 * 24 * Hour)
      && c.variablesByPlatform == map[] && c.pathReplacementByPlatform == map[]
  {
  }

  /** One variable's values with their trailing slashes removed. */
  function TrimmedRow(row: map<string, string>): map<string, string>
  {
    map p | p in row :: TrimRight(row[p], '/')
  }

  /** Every path-replacement value with its trailing slashes removed. */
  function Trimmed(m: Matrix): Matrix
  {
    map v | v in m :: TrimmedRow(m[v])
  }

  /** A variable defined both as a regular and as a path replacement variable. */
  ghost predicate HasDuplicate(variables: Matrix, paths: Matrix)
  {
    AnyDefined(paths.Keys, variables)
  }

  ghost predicate AnyDefined(names: set<string>, variables: Matrix)
  {
    exists v :: v in names && v in variables
  }

  /** The loop of GetConf over the path replacements: flag every name that is
      also a regular variable, and trim the trailing slashes of every value. */
  method CheckAndTrimPaths(variables: Matrix, paths: Matrix) returns (paths': Matrix, foundDuplicate: bool)
    ensures foundDuplicate <==> HasDuplicate(variables, paths)
    ensures paths' == Trimmed(paths)
  {
    TrimmedOverAll(paths);
    foundDuplicate := false;
    paths' := paths;
    var todo := paths.Keys;
    ghost var done: set<string> := {};
    while todo != {}
      invariant todo <= paths.Keys && done == paths.Keys - todo
      invariant foundDuplicate <==> AnyDefined(done, variables)
      invariant TrimmedOver(paths', paths, done)
      decreases |todo|
    {
      var varname :| varname in todo;
      TodoStep(paths.Keys, todo, done, varname);
      // Check variable/path replacement duplicates.
      if varname in variables {
        foundDuplicate := true;
      }
      assert AnyDefined(done + {varname}, variables) <==> AnyDefined(done, variables) || varname in variables;
      var perplatform := TrimRow(paths[varname]);
      TrimStep(paths', paths, done, varname, perplatform);
      paths' := paths'[varname := perplatform];
      todo := todo - {varname};
      done := done + {varname};
    }
  }

  /** `cur` is `paths` with the rows named in `done` trimmed. */
  ghost predicate TrimmedOver(cur: Matrix, paths: Matrix, done: set<string>)
  {
    cur.Keys == paths.Keys && forall v :: v in cur ==> cur[v] == if v in done then TrimmedRow(paths[v]) else paths[v]
  }

  lemma TrimStep(cur: Matrix, paths: Matrix, done: set<string>, v: string, row: map<string, string>)
    requires TrimmedOver(cur, paths, done) && v in paths && row == TrimmedRow(paths[v])
    ensures TrimmedOver(cur[v := row], paths, done + {v})
  {
  }

  lemma TrimmedOverAll(paths: Matrix)
    ensures TrimmedOver(paths, paths, {})
    ensures forall cur :: TrimmedOver(cur, paths, paths.Keys) ==> cur == Trimmed(paths)
  {
  }

  /** The inner loop: strings.TrimRight(value, "/") on every platform's value. */
  method TrimRow(perplatform: map<string, string>) returns (r: map<string, string>)
    ensures r == TrimmedRow(perplatform)
  {
    r := perplatform;
    var todo := perplatform.Keys;
    while todo != {}
      invariant todo <= perplatform.Keys && r.Keys == perplatform.Keys
      invariant forall p :: p in r ==> r[p] == if p in todo then perplatform[p] else TrimRight(perplatform[p], '/')
      decreases |todo|
    {
      var platform :| platform in todo;
      r := r[platform := TrimRight(r[platform], '/')];
      todo := todo - {platform};
    }
  }

  /** No trimmed path ends in a slash, and each is a prefix of the value it
      came from that differs only by the slashes removed. */
  lemma TrimmedPaths(m: Matrix)
    ensures forall v, p :: v in m && p in m[v] ==>
              var t := Trimmed(m)[v][p];
              && (|t| > 0 ==> t[|t| - 1] != '/')
              && |t| <= |m[v][p]| && t == m[v][p][..|t|]
              && forall i :: |t| <= i < |m[v][p]| ==> m[v][p][i] == '/'
  {
    forall v, p | v in m && p in m[v]
      ensures var t := Trimmed(m)[v][p];
              && (|t| > 0 ==> t[|t| - 1] != '/')
              && |t| <= |m[v][p]| && t == m[v][p][..|t|]
              && forall i :: |t| <= i < |m[v][p]| ==> m[v][p][i] == '/'
    {
      TrimRightSpec(m[v][p], '/');
    }
  }

  /** Why GetConf gives up (log.Fatalf). */
  datatype ConfError = ReadOrParseFailed | BadFlamencoUrl | DuplicateVariables

  datatype ConfResult = Loaded(conf: Conf) | Fatal(err: ConfError)

  /** GetConf. `yaml` is the parsed file, None when it cannot be read or
      parsed; `urlOk` says whether the "flamenco" URL parses. */
  method GetConf(yaml: Option<YamlConf>, urlOk: bool) returns (r: ConfResult)
    ensures yaml.None? ==> r == Fatal(ReadOrParseFailed)
    ensures yaml.Some? && !urlOk ==> r == Fatal(BadFlamencoUrl)
    ensures yaml.Some? && urlOk ==>
              var c := Unmarshal(Defaults, yaml.value);
              if HasDuplicate(c.variablesByVarname, c.pathReplacementByVarname) then r == Fatal(DuplicateVariables)
              else r.Loaded? && r == Loaded(c.(pathReplacementByVarname := Trimmed(c.pathReplacementByVarname),
                                  variablesByPlatform := r.conf.variablesByPlatform,
                                  pathReplacementByPlatform := r.conf.pathReplacementByPlatform))
                   && IsTransposeOf(r.conf.variablesByPlatform, c.variablesByVarname)
                   && IsTransposeOf(r.conf.pathReplacementByPlatform, Trimmed(c.pathReplacementByVarname))
  {
    if yaml.None? {
      return Fatal(ReadOrParseFailed);
    }
    // Construct the struct with some more or less sensible defaults.
    var c := Unmarshal(Defaults, yaml.value);
    if !urlOk {
      return Fatal(BadFlamencoUrl);
    }
    var paths, foundDuplicate := CheckAndTrimPaths(c.variablesByVarname, c.pathReplacementByVarname);
    c := c.(pathReplacementByVarname := paths);
    var byPlatform := TransposeVariableMatrix(c.variablesByVarname);
    c := c.(variablesByPlatform := byPlatform);
    byPlatform := TransposeVariableMatrix(c.pathReplacementByVarname);
    c := c.(pathReplacementByPlatform := byPlatform);
    if foundDuplicate {
      return Fatal(DuplicateVariables);
    }
    r := Loaded(c);
  }
}
