/** Variable and path replacement in the commands of a task before it is
    handed to a worker (flamenco/varrepl.go). The expansion itself,
    `Conf.ExpandVariables(value, audience, platform)`, is a parameter. */
module VarRepl {
  import opened Database

  /** Conf.ExpandVariables: the value with the variables of the given
      audience and platform substituted. */
  type Expander = (string, string, string) -> string

  /** The audience the manager expands for, both for workers and for itself. */
  const WorkersAudience := "workers"

  /** A setting after replacement: strings are expanded, every other kind of
      value stays as it is. */
  function ReplacedValue(expand: Expander, platform: string, v: SettingValue): SettingValue
  {
    match v
    case SStr(s) => SStr(expand(s, WorkersAudience, platform))
    case _ => v
  }

  /** The same commands, in the same order, each with every string setting expanded. */
  predicate ReplacedCommands(expand: Expander, platform: string, before: seq<Command>, after: seq<Command>)
  {
    && |after| == |before|
    && forall i :: 0 <= i < |before| ==>
         && after[i].name == before[i].name
         && after[i].settings.Keys == before[i].settings.Keys
         && forall key :: key in before[i].settings ==>
              after[i].settings[key] == ReplacedValue(expand, platform, before[i].settings[key])
  }

  /** ReplaceVariables on one command: every key of its settings map is visited
      once, in whatever order the map yields them. */
  method ReplaceInSettings(expand: Expander, platform: string, settings: map<string, SettingValue>)
    returns (settings': map<string, SettingValue>)
    ensures settings'.Keys == settings.Keys
    ensures forall key :: key in settings ==> settings'[key] == ReplacedValue(expand, platform, settings[key])
  {
    settings' := settings;
    var todo := settings.Keys;
    while todo != {}
      invariant todo <= settings.Keys && settings'.Keys == settings.Keys
      invariant forall key :: key in todo ==> settings'[key] == settings[key]
      invariant forall key :: key in settings && key !in todo ==>
                  settings'[key] == ReplacedValue(expand, platform, settings[key])
      decreases |todo|
    {
      var key :| key in todo;
      todo := todo - {key};
      var value := settings'[key];
      // Only do replacement on string types.
      if !value.SStr? {
        continue;
      }
      settings' := settings'[key := SStr(expand(value.s, WorkersAudience, platform))];
    }
  }

  /** ReplaceVariables: performs variable replacement on every string setting
      of every command of the task; nothing else about the task changes. */
  method ReplaceVariables(expand: Expander, task: Task, platform: string) returns (task': Task)
    ensures ReplacedCommands(expand, platform, task.commands, task'.commands)
    ensures task' == task.(commands := task'.commands)
  {
    var commands := task.commands;
    var i := 0;
    while i < |commands|
      invariant 0 <= i <= |commands| && |commands| == |task.commands|
      invariant forall j :: i <= j < |commands| ==> commands[j] == task.commands[j]
      invariant forall j :: 0 <= j < i ==>
                  && commands[j].name == task.commands[j].name
                  && commands[j].settings.Keys == task.commands[j].settings.Keys
                  && forall key :: key in task.commands[j].settings ==>
                       commands[j].settings[key] == ReplacedValue(expand, platform, task.commands[j].settings[key])
    {
      var settings' := ReplaceInSettings(expand, platform, commands[i].settings);
      commands := commands[i := commands[i].(settings := settings')];
      i := i + 1;
    }
    task' := task.(commands := commands);
  }

  /** Replacing twice with an expansion that leaves its own output alone is the
      same as replacing once. */
  lemma ReplaceIdempotent(expand: Expander, platform: string, a: seq<Command>, b: seq<Command>, c: seq<Command>)
    requires forall s :: expand(expand(s, WorkersAudience, platform), WorkersAudience, platform)
                         == expand(s, WorkersAudience, platform)
    requires ReplacedCommands(expand, platform, a, b) && ReplacedCommands(expand, platform, b, c)
    ensures c == b
  {
    forall i | 0 <= i < |b|
      ensures c[i] == b[i]
    {
      assert c[i].settings == b[i].settings;
    }
  }

  /** ReplaceLocal: the manager itself belongs to the "workers" audience and
      expands for the platform it runs on. */
  function ReplaceLocal(expand: Expander, value: string, goos: string): (r: string)
    ensures SStr(r) == ReplacedValue(expand, goos, SStr(value))
  {
    expand(value, "workers", goos)
  }

  /** A string the manager expands for itself comes out as the same string
      setting does in a task handed to a worker of the manager's platform. */
  lemma LocalAgreesWithWorker(expand: Expander, goos: string, before: seq<Command>, after: seq<Command>,
                              i: int, key: string, value: string)
    requires ReplacedCommands(expand, goos, before, after)
    requires 0 <= i < |before| && key in before[i].settings && before[i].settings[key] == SStr(value)
    ensures key in after[i].settings && after[i].settings[key] == SStr(ReplaceLocal(expand, value, goos))
  {
  }
}
