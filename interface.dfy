/** The non-interactive logic of the board shell (daikanban/interface.py): resolving a
    project or task from an id or a name, grouping statuses into board columns, and the
    prefix-based dispatch of a tokenised command line. */
module Interface {
  import opened Wrappers
  import opened Dicts
  import opened Utils
  import opened Tasks

  datatype UserInputError = UserInputError(msg: string)

  // ---------------------------------------------------------------------------
  // _parse_id_or_name (daikanban/interface.py:312-326)
  // ---------------------------------------------------------------------------

  /** `str.isdigit`: non-empty and made of digits only. */
  predicate IsDigits(s: string) {
    |s| > 0 && forall i :: 0 <= i < |s| ==> IsDigit(s[i])
  }

  /** `int(s)` for a string of decimal digits. */
  function DecimalValue(s: string): (n: nat)
    requires forall i :: 0 <= i < |s| ==> IsDigit(s[i])
  {
    if s == [] then 0
    else
      var d := s[|s| - 1];
      assert IsDigit(d);
      DecimalValue(s[..|s| - 1]) * 10 + (d as int - '0' as int)
  }

  /** Leading zeros do not change the id an all-digit input denotes ('007' is id 7). */
  lemma {:induction false} DecimalValueLeadingZero(s: string)
    requires forall i :: 0 <= i < |s| ==> IsDigit(s[i])
    ensures DecimalValue("0" + s) == DecimalValue(s)
  {
    if s != [] {
      assert ("0" + s)[..|"0" + s| - 1] == "0" + s[..|s| - 1];
      DecimalValueLeadingZero(s[..|s| - 1]);
    }
  }

  /** The position of the first item whose lower-cased name is `key`. */
  function IndexOfName(items: Dict<nat, string>, key: string): (r: Option<nat>)
    ensures r.Some? ==> r.value < |items| && Lower(items[r.value].1) == key
    ensures r.Some? ==> forall j :: 0 <= j < r.value ==> Lower(items[j].1) != key
    ensures r.None? ==> forall j :: 0 <= j < |items| ==> Lower(items[j].1) != key
  {
    if items == [] then None
    else if Lower(items[0].1) == key then Some(0)
    else
      match IndexOfName(items[1..], key)
      case None => None
      case Some(k) => Some(k + 1)
  }

  /** Resolves the user's text against the (id, name) entries of the board's project or
      task map, in the map's order. Blank text gives no id; an all-digit text is an id that
      must be a key and is never looked up as a name; any other text picks the first entry
      whose name equals it case-insensitively. */
  method ParseIdOrName(itemType: string, items: Dict<nat, string>, s: string)
    returns (r: Result<Option<nat>, UserInputError>)
    ensures Strip(s) == [] ==> r == Ok(None)
    ensures IsDigits(Strip(s)) ==>
      r == if DecimalValue(Strip(s)) in Keys(items) then Ok(Some(DecimalValue(Strip(s))))
           else Err(UserInputError("Invalid " + itemType + " ID."))
    ensures Strip(s) != [] && !IsDigits(Strip(s)) ==>
      r == if IndexOfName(items, Lower(Strip(s))).Some?
           then Ok(Some(items[IndexOfName(items, Lower(Strip(s))).value].0))
           else Err(UserInputError("Invalid " + itemType + " name."))
  {
    var t := Strip(s);
    if t == [] {
      return Ok(None);
    }
    if IsDigits(t) {
      var id := DecimalValue(t);
      if id in Keys(items) {
        return Ok(Some(id));
      }
      return Err(UserInputError("Invalid " + itemType + " ID."));
    }
    var found := FindByName(items, Lower(t));
    if found.Some? {
      return Ok(found);
    }
    return Err(UserInputError("Invalid " + itemType + " name."));
  }

  /** The scan over the entries for the first one whose lower-cased name is `key`, giving
      that entry's id. */
  method FindByName(items: Dict<nat, string>, key: string) returns (r: Option<nat>)
    ensures r.Some? <==> IndexOfName(items, key).Some?
    ensures r.Some? ==> r.value == items[IndexOfName(items, key).value].0
  {
    var i := 0;
    while i < |items|
      invariant 0 <= i <= |items|
      invariant forall j :: 0 <= j < i ==> Lower(items[j].1) != key
    {
      if Lower(items[i].1) == key {
        return Some(items[i].0);
      }
      i := i + 1;
    }
    return None;
  }

  // ---------------------------------------------------------------------------
  // _status_group_info (daikanban/interface.py:624-640)
  // ---------------------------------------------------------------------------

  /** The statuses of `xs` that are in `keep`, in their original order. */
  function Filter(xs: seq<TaskStatus>, keep: set<TaskStatus>): (r: seq<TaskStatus>)
    ensures forall x :: x in r <==> x in xs && x in keep
    ensures |r| <= |xs|
  {
    if xs == [] then []
    else (if xs[0] in keep then [xs[0]] else []) + Filter(xs[1..], keep)
  }

  /** Filtering keeps relative order: it distributes over concatenation. */
  lemma {:induction false} FilterAppend(a: seq<TaskStatus>, b: seq<TaskStatus>, keep: set<TaskStatus>)
    ensures Filter(a + b, keep) == Filter(a, keep) + Filter(b, keep)
  {
    if a != [] {
      assert (a + b)[0] == a[0] && (a + b)[1..] == a[1..] + b;
      FilterAppend(a[1..], b, keep);
      var h := if a[0] in keep then [a[0]] else [];
      calc {
        Filter(a + b, keep);
        h + Filter(a[1..] + b, keep);
        h + (Filter(a[1..], keep) + Filter(b, keep));
        (h + Filter(a[1..], keep)) + Filter(b, keep);
        Filter(a, keep) + Filter(b, keep);
      }
    } else {
      assert a + b == b;
    }
  }

  /** A list whose statuses are all kept is unchanged. */
  lemma {:induction false} FilterKeepsAll(xs: seq<TaskStatus>, keep: set<TaskStatus>)
    requires forall x :: x in xs ==> x in keep
    ensures Filter(xs, keep) == xs
  {
    if xs != [] {
      FilterKeepsAll(xs[1..], keep);
    }
  }

  /** Each column keeps only the requested statuses; the columns themselves all stay. */
  function FilterGroups(groups: StatusGroups, keep: set<TaskStatus>): (r: StatusGroups)
    ensures |r| == |groups| && Keys(r) == Keys(groups)
  {
    var r := seq(|groups|, i requires 0 <= i < |groups| => (groups[i].0, Filter(groups[i].1, keep)));
    assert Keys(r) == Keys(groups);
    r
  }

  /** The columns used for display: filtered when a non-empty status list is given. */
  function EffectiveGroups(groups: StatusGroups, statuses: Option<seq<TaskStatus>>): StatusGroups {
    if statuses.Some? && statuses.value != []
    then FilterGroups(groups, set s | s in statuses.value)
    else groups
  }

  /** Group `i` is the last group listing status `s`. */
  predicate LastGroupOf(groups: StatusGroups, s: TaskStatus, i: int) {
    && 0 <= i < |groups|
    && s in groups[i].1
    && forall j :: i < j < |groups| ==> s !in groups[j].1
  }

  /** `m` with each status of `xs` in turn set to `group`. */
  function AssignAll(m: map<TaskStatus, string>, xs: seq<TaskStatus>, group: string): map<TaskStatus, string>
    decreases |xs|
  {
    if xs == [] then m else AssignAll(m[xs[0] := group], xs[1..], group)
  }

  /** After the assignments, the statuses of `xs` map to `group` and the others are as in `m`. */
  lemma {:induction false} AssignAllSpec(m: map<TaskStatus, string>, xs: seq<TaskStatus>, group: string, s: TaskStatus)
    ensures s in xs ==> s in AssignAll(m, xs, group) && AssignAll(m, xs, group)[s] == group
    ensures s !in xs ==> (s in AssignAll(m, xs, group) <==> s in m)
    ensures s !in xs && s in m ==> AssignAll(m, xs, group)[s] == m[s]
    decreases |xs|
  {
    if xs != [] {
      AssignAllSpec(m[xs[0] := group], xs[1..], group, s);
      assert s in xs <==> s == xs[0] || s in xs[1..];
    }
  }

  /** Status to column, assigned group by group so that a later group overrides. */
  function ByStatus(groups: StatusGroups): map<TaskStatus, string> {
    if groups == [] then map[]
    else
      var last := groups[|groups| - 1];
      AssignAll(ByStatus(groups[..|groups| - 1]), last.1, last.0)
  }

  /** One more group: its statuses now map to it, the others keep their column. */
  lemma ByStatusStep(groups: StatusGroups, s: TaskStatus)
    requires groups != []
    ensures s in groups[|groups| - 1].1 ==>
      s in ByStatus(groups) && ByStatus(groups)[s] == groups[|groups| - 1].0
    ensures s !in groups[|groups| - 1].1 ==>
      (s in ByStatus(groups) <==> s in ByStatus(groups[..|groups| - 1]))
      && (s in ByStatus(groups) ==> ByStatus(groups)[s] == ByStatus(groups[..|groups| - 1])[s])
  {
    var last := groups[|groups| - 1];
    AssignAllSpec(ByStatus(groups[..|groups| - 1]), last.1, last.0, s);
  }

  /** A status is mapped exactly when some group lists it, and then to the last such group. */
  lemma {:induction false} ByStatusSpec(groups: StatusGroups, s: TaskStatus)
    ensures s in ByStatus(groups) <==> exists i :: 0 <= i < |groups| && s in groups[i].1
    ensures forall i :: LastGroupOf(groups, s, i) ==> s in ByStatus(groups) && ByStatus(groups)[s] == groups[i].0
  {
    if groups != [] {
      var n := |groups| - 1;
      var init := groups[..n];
      ByStatusSpec(init, s);
      ByStatusStep(groups, s);
      if s !in groups[n].1 {
        assert forall i :: 0 <= i < n ==> init[i] == groups[i];
        forall i | LastGroupOf(groups, s, i) ensures LastGroupOf(init, s, i) {
        }
      } else {
        forall i | LastGroupOf(groups, s, i) ensures i == n {
        }
      }
    }
  }

  /** Column to colour, for the columns that list at least one status, in column order. */
  function Colors(groups: StatusGroups): (r: Dict<string, string>)
    ensures forall g :: g in Keys(r) ==> g in Keys(groups)
  {
    if groups == [] then []
    else
      var n := |groups| - 1;
      var rest := Colors(groups[..n]);
      assert forall g :: g in Keys(groups[..n]) ==> g in Keys(groups) by {
        assert Keys(groups[..n]) == Keys(groups)[..n];
      }
      if groups[n].1 != [] then
        assert Keys(rest + [(groups[n].0, groups[n].1[0].Color())]) == Keys(rest) + [groups[n].0];
        rest + [(groups[n].0, groups[n].1[0].Color())]
      else rest
  }

  /** One more column adds its colour at the end when it lists a status. */
  lemma ColorsStep(groups: StatusGroups)
    requires groups != []
    ensures var n := |groups| - 1;
      Colors(groups) == if groups[n].1 != [] then Colors(groups[..n]) + [(groups[n].0, groups[n].1[0].Color())]
                        else Colors(groups[..n])
  {
  }

  /** With distinct column names: a column has a colour exactly when it lists a status, and
      the colour is that of its first status. */
  lemma {:induction false} ColorsSpec(groups: StatusGroups, i: nat)
    requires DistinctKeys(groups) && i < |groups|
    ensures Get(Colors(groups), groups[i].0)
         == if groups[i].1 != [] then Some(groups[i].1[0].Color()) else None
  {
    var n := |groups| - 1;
    var init := groups[..n];
    ColorsStep(groups);
    InitDistinct(groups);
    if i < n {
      ColorsSpec(init, i);
      assert init[i] == groups[i];
      assert groups[i].0 != groups[n].0;
      ColorOfOther(Colors(init), groups[n].0, groups[n].1, groups[i].0);
    } else {
      ColorOfNew(Colors(init), groups[n].0, groups[n].1);
    }
  }

  /** Appending a column's colour does not change the colour of another column. */
  lemma ColorOfOther(rest: Dict<string, string>, g: string, statuses: seq<TaskStatus>, x: string)
    requires x != g
    ensures Get(if statuses != [] then rest + [(g, statuses[0].Color())] else rest, x) == Get(rest, x)
  {
    if statuses != [] {
      GetAppend(rest, g, statuses[0].Color(), x);
    }
  }

  /** A new column gets the colour of its first status, and none when it lists no status. */
  lemma ColorOfNew(rest: Dict<string, string>, g: string, statuses: seq<TaskStatus>)
    requires g !in Keys(rest)
    ensures Get(if statuses != [] then rest + [(g, statuses[0].Color())] else rest, g)
         == if statuses != [] then Some(statuses[0].Color()) else None
  {
    if statuses != [] {
      GetAppend(rest, g, statuses[0].Color(), g);
    }
  }

  /** Dropping the last column keeps the names distinct, and the last name is not among the
      earlier ones. */
  lemma InitDistinct(groups: StatusGroups)
    requires DistinctKeys(groups) && groups != []
    ensures DistinctKeys(groups[..|groups| - 1])
    ensures groups[|groups| - 1].0 !in Keys(groups[..|groups| - 1])
  {
    EarlierKeysDistinct(groups, |groups| - 1);
  }

  /** Filtering keeps the column names, so distinct names stay distinct. */
  lemma EffectiveGroupsDistinct(groups: StatusGroups, statuses: Option<seq<TaskStatus>>)
    requires DistinctKeys(groups)
    ensures DistinctKeys(EffectiveGroups(groups, statuses))
  {
    var g := EffectiveGroups(groups, statuses);
    assert Keys(g) == Keys(groups);
    forall i, j | 0 <= i < j < |g| ensures g[i].0 != g[j].0 {
      assert Keys(g)[i] == Keys(groups)[i] && Keys(g)[j] == Keys(groups)[j];
    }
  }

  /** The column names before position `k` do not include the name at `k`. */
  lemma EarlierKeysDistinct(g: StatusGroups, k: nat)
    requires DistinctKeys(g) && k < |g|
    ensures g[k].0 !in Keys(g[..k])
  {
  }

  /** Returns the status-to-column map and the column colours for the board's columns,
      optionally restricted to the given statuses. */
  method StatusGroupInfo(groups: StatusGroups, statuses: Option<seq<TaskStatus>>)
    returns (groupByStatus: map<TaskStatus, string>, groupColors: Dict<string, string>)
    requires DistinctKeys(groups)
    ensures groupByStatus == ByStatus(EffectiveGroups(groups, statuses))
    ensures groupColors == Colors(EffectiveGroups(groups, statuses))
  {
    var g := EffectiveGroups(groups, statuses);
    EffectiveGroupsDistinct(groups, statuses);
    groupByStatus := map[];
    groupColors := [];
    var k := 0;
    while k < |g|
      invariant 0 <= k <= |g|
      invariant groupByStatus == ByStatus(g[..k])
      invariant groupColors == Colors(g[..k])
    {
      var group, groupStatuses := g[k].0, g[k].1;
      assert g[..k + 1][..k] == g[..k] && g[..k + 1][k] == g[k];
      if groupStatuses != [] {
        EarlierKeysDistinct(g, k);
        groupColors := Put(groupColors, group, groupStatuses[0].Color());
      }
      var j := 0;
      while j < |groupStatuses|
        invariant 0 <= j <= |groupStatuses|
        invariant AssignAll(groupByStatus, groupStatuses[j..], group) == ByStatus(g[..k + 1])
      {
        assert groupStatuses[j..][0] == groupStatuses[j] && groupStatuses[j..][1..] == groupStatuses[j + 1..];
        groupByStatus := groupByStatus[groupStatuses[j] := group];
        j := j + 1;
      }
      k := k + 1;
    }
    assert g[..k] == g;
  }

  /** With the default columns and no filter: todo, active and complete columns coloured by
      their first status, and paused tasks shown in the active column. */
  lemma DefaultStatusGroupInfo()
    ensures ByStatus(EffectiveGroups(DefaultTaskStatusGroups, None))
         == map[Todo := "todo", Active := "active", Paused := "active", Complete := "complete"]
    ensures Colors(EffectiveGroups(DefaultTaskStatusGroups, None))
         == [("todo", "bright_black"), ("active", "bright_red"), ("complete", "green")]
  {
    var g := DefaultTaskStatusGroups;
    assert g[..2][..1] == g[..1] && g[..3] == g && g[..3][..2] == g[..2] && g[..1][..0] == [];
    assert ByStatus(g[..1]) == map[Todo := "todo"];
    assert ByStatus(g[..2]) == map[Todo := "todo", Active := "active", Paused := "active"];
    assert Colors(g[..1]) == [("todo", "bright_black")];
    assert Colors(g[..2]) == [("todo", "bright_black"), ("active", "bright_red")];
  }

  /** Showing only paused tasks leaves one column, 'active', now coloured as paused. */
  lemma PausedOnlyStatusGroupInfo()
    ensures ByStatus(EffectiveGroups(DefaultTaskStatusGroups, Some([Paused]))) == map[Paused := "active"]
    ensures Colors(EffectiveGroups(DefaultTaskStatusGroups, Some([Paused]))) == [("active", "orange3")]
  {
    var keep := set s | s in [Paused];
    assert keep == {Paused};
    var g := FilterGroups(DefaultTaskStatusGroups, keep);
    assert Filter([Todo], keep) == [];
    assert Filter([Paused], keep) == [Paused];
    assert Filter([Active, Paused], keep) == [Paused];
    assert Filter([Complete], keep) == [];
    assert g == [("todo", []), ("active", [Paused]), ("complete", [])];
    assert g[..2][..1] == g[..1] && g[..3] == g && g[..3][..2] == g[..2] && g[..1][..0] == [];
    assert ByStatus(g[..1]) == map[];
    assert ByStatus(g[..2]) == map[Paused := "active"];
    assert Colors(g[..1]) == [];
    assert Colors(g[..2]) == [("active", "orange3")];
  }

  // ---------------------------------------------------------------------------
  // evaluate_prompt dispatch (daikanban/interface.py:685-736)
  // ---------------------------------------------------------------------------

  /** The action a command line selects. */
  datatype Command =
    | NoOp
    | ShowBoardHelp | DeleteBoard | LoadBoard(path: Option<string>) | NewBoard | ShowBoard | ShowSchema
    | ShowHelp
    | ShowProjectHelp | NewProject | DeleteProject(project: Option<string>)
    | ShowProjects | ShowProject(name: string)
    | QuitShell
    | ShowTaskHelp | DeleteTask(task: Option<string>) | NewTask | ShowTasks | ShowTask(name: string)

  const InvalidInput := UserInputError("Invalid input")

  function BoardCommand(tokens: seq<string>): (r: Result<Command, UserInputError>)
    requires |tokens| >= 1
  {
    if |tokens| == 1 || PrefixMatch(tokens[1], "help", 1) then Ok(ShowBoardHelp)
    else if PrefixMatch(tokens[1], "delete", 1) then Ok(DeleteBoard)
    else if PrefixMatch(tokens[1], "load", 1) then Ok(LoadBoard(if |tokens| >= 3 then Some(tokens[2]) else None))
    else if PrefixMatch(tokens[1], "new", 1) then Ok(NewBoard)
    else if PrefixMatch(tokens[1], "show", 1) then Ok(ShowBoard)
    else if PrefixMatch(tokens[1], "schema", 2) then Ok(ShowSchema)
    else Err(InvalidInput)
  }

  function ProjectCommand(tokens: seq<string>): (r: Result<Command, UserInputError>)
    requires |tokens| >= 1
  {
    if |tokens| == 1 || PrefixMatch(tokens[1], "help", 1) then Ok(ShowProjectHelp)
    else if PrefixMatch(tokens[1], "new", 1) then Ok(NewProject)
    else if PrefixMatch(tokens[1], "delete", 1) then Ok(DeleteProject(if |tokens| == 2 then None else Some(tokens[2])))
    else if PrefixMatch(tokens[1], "show", 1) then
      (if |tokens| == 2 then Ok(ShowProjects) else Ok(ShowProject(tokens[2])))
    else Err(InvalidInput)
  }

  function TaskCommand(tokens: seq<string>): (r: Result<Command, UserInputError>)
    requires |tokens| >= 1
  {
    if |tokens| == 1 || PrefixMatch(tokens[1], "help", 1) then Ok(ShowTaskHelp)
    else if PrefixMatch(tokens[1], "delete", 1) then Ok(DeleteTask(if |tokens| == 2 then None else Some(tokens[2])))
    else if PrefixMatch(tokens[1], "new", 1) then Ok(NewTask)
    else if PrefixMatch(tokens[1], "show", 1) then
      (if |tokens| == 2 then Ok(ShowTasks) else Ok(ShowTask(tokens[2])))
    else Err(InvalidInput)
  }

  /** The first token is tried against board, help/info, project, quit/exit and task in
      that order; once a group is chosen, an unmatched sub-command is invalid input. */
  function Dispatch(tokens: seq<string>): (r: Result<Command, UserInputError>)
    requires |tokens| >= 1
    ensures r.Err? ==> r.error == InvalidInput
    ensures r.Ok? ==> r.value != NoOp
  {
    var tok0 := tokens[0];
    if PrefixMatch(tok0, "board", 1) then BoardCommand(tokens)
    else if PrefixMatch(tok0, "help", 1) || tok0 == "info" then Ok(ShowHelp)
    else if PrefixMatch(tok0, "project", 1) then ProjectCommand(tokens)
    else if PrefixMatch(tok0, "quit", 1) || tok0 == "exit" then Ok(QuitShell)
    else if PrefixMatch(tok0, "task", 1) then TaskCommand(tokens)
    else Err(InvalidInput)
  }

  /** `evaluate_prompt`: a blank prompt does nothing; otherwise the shell-split tokens of the
      prompt, of which there is at least one, are dispatched. */
  function EvaluatePrompt(prompt: string, tokens: seq<string>): (r: Result<Command, UserInputError>)
    requires Strip(prompt) != [] ==> |tokens| >= 1
    ensures r == Ok(NoOp) <==> Strip(prompt) == []
  {
    if Strip(prompt) == [] then Ok(NoOp) else Dispatch(tokens)
  }

  /** The words a first token can abbreviate, and the two whole-word aliases. */
  predicate KnownFirstToken(tok: string) {
    || PrefixMatch(tok, "board", 1) || PrefixMatch(tok, "help", 1) || tok == "info"
    || PrefixMatch(tok, "project", 1) || PrefixMatch(tok, "quit", 1) || tok == "exit"
    || PrefixMatch(tok, "task", 1)
  }

  /** A command line is accepted only if its first token is known; a single known token is
      always accepted (a group on its own shows that group's help). */
  lemma DispatchFirstToken(tokens: seq<string>)
    requires |tokens| >= 1
    ensures Dispatch(tokens).Ok? ==> KnownFirstToken(tokens[0])
    ensures |tokens| == 1 ==> (Dispatch(tokens).Ok? <==> KnownFirstToken(tokens[0]))
  {
  }

  /** The sub-command words of a group, each matched from its first letter. */
  function SubcommandWords(group: string): seq<string> {
    if group == "board" then ["help", "delete", "load", "new", "show"]
    else if group == "project" then ["help", "new", "delete", "show"]
    else ["help", "delete", "new", "show"]
  }

  /** Under a group, a sub-command matching none of that group's own words (nor, under board,
      'schema' from two letters) is invalid input; it never falls through to another group. */
  lemma DispatchUnknownSubcommand(group: string, tokens: seq<string>)
    requires group in ["board", "project", "task"]
    requires |tokens| >= 2 && PrefixMatch(tokens[0], group, 1)
    requires forall w :: w in SubcommandWords(group) ==> !PrefixMatch(tokens[1], w, 1)
    requires group == "board" ==> !PrefixMatch(tokens[1], "schema", 2)
    ensures Dispatch(tokens) == Err(InvalidInput)
  {
    var words := SubcommandWords(group);
    assert words[0] in words && words[1] in words && words[2] in words && words[3] in words;
    if group == "board" {
      assert words[4] in words;
    }
    assert tokens[0][0] == group[0];
  }

  /** Abbreviations of another group's words are rejected too. */
  lemma DispatchForeignSubcommand()
    ensures Dispatch(["project", "l"]) == Err(InvalidInput)
    ensures Dispatch(["task", "sc"]) == Err(InvalidInput)
  {
    DispatchUnknownSubcommand("project", ["project", "l"]);
    assert "show"[..2][1] == 'h';
    DispatchUnknownSubcommand("task", ["task", "sc"]);
  }

  /** Board sub-commands are tried as delete, load, new, show, schema: 's' means show, and
      schema needs two letters. */
  lemma BoardSubcommandOrder()
    ensures Dispatch(["board", "s"]) == Ok(ShowBoard)
    ensures Dispatch(["b", "sc"]) == Ok(ShowSchema)
    ensures Dispatch(["b", "d"]) == Ok(DeleteBoard)
  {
    assert PrefixMatch("s", "show", 1);
    assert "show"[..2][1] == 'h';
    assert !PrefixMatch("sc", "show", 1) && PrefixMatch("sc", "schema", 2);
  }

  /** 'board load' takes an optional file name; a bare 'board' asks for help, and an
      unknown board sub-command is invalid input. */
  lemma BoardLoadAndHelp()
    ensures Dispatch(["b", "l"]) == Ok(LoadBoard(None))
    ensures Dispatch(["b", "load", "x.json"]) == Ok(LoadBoard(Some("x.json")))
    ensures Dispatch(["b"]) == Ok(ShowBoardHelp)
    ensures Dispatch(["board", "x"]) == Err(InvalidInput)
  {
  }

  /** Project sub-commands take the project from the third token when there is one. */
  lemma ProjectSubcommands()
    ensures Dispatch(["project", "show"]) == Ok(ShowProjects)
    ensures Dispatch(["p", "s", "myproj"]) == Ok(ShowProject("myproj"))
    ensures Dispatch(["p", "d"]) == Ok(DeleteProject(None))
  {
    assert !PrefixMatch("p", "board", 1) && !PrefixMatch("p", "help", 1);
    assert !PrefixMatch("project", "board", 1) && !PrefixMatch("project", "help", 1);
    assert !PrefixMatch("s", "help", 1) && !PrefixMatch("s", "new", 1) && !PrefixMatch("s", "delete", 1);
    assert !PrefixMatch("d", "help", 1) && !PrefixMatch("d", "new", 1);
  }

  /** Task sub-commands take the task from the third token when there is one. */
  lemma TaskSubcommands()
    ensures Dispatch(["t", "d", "3"]) == Ok(DeleteTask(Some("3")))
    ensures Dispatch(["t", "new"]) == Ok(NewTask)
  {
    assert !PrefixMatch("t", "board", 1) && !PrefixMatch("t", "help", 1);
    assert !PrefixMatch("t", "project", 1) && !PrefixMatch("t", "quit", 1);
    assert !PrefixMatch("d", "help", 1) && !PrefixMatch("new", "help", 1) && !PrefixMatch("new", "delete", 1);
  }

  /** 'info' and 'exit' are whole-word aliases; help ignores further tokens. */
  lemma TopLevelAliases()
    ensures Dispatch(["info"]) == Ok(ShowHelp) && Dispatch(["exit"]) == Ok(QuitShell)
    ensures Dispatch(["h", "x"]) == Ok(ShowHelp)
  {
    assert !PrefixMatch("info", "board", 1) && !PrefixMatch("exit", "board", 1);
    assert !PrefixMatch("exit", "help", 1) && !PrefixMatch("exit", "project", 1);
    assert !PrefixMatch("h", "board", 1);
  }
}
