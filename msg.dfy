/**
 * Messaging channels and parsers: enabling and disabling them keeps the
 * scheduler's task table in step with their `enabled` flags, and the form
 * hooks reconcile the flag before and after an edit.
 */
module Msg {
  import opened Wrappers

  /** Task statuses that count as "the task exists". */
  predicate IsActiveStatus(status: string) {
    status == "RUNNING" || status == "QUEUED" || status == "ALLOCATED"
  }

  /**
   * The `args` of a scheduler task: `'["<tablename>", <channel_id>]'` for a
   * poll, `'[<channel_id>, "<function_name>"]'` for a parse.
   */
  datatype TaskArgs = PollArgs(tablename: string, channelId: int) | ParseArgs(channelId: int, functionName: string)

  datatype Task = Task(functionName: string, args: TaskArgs, status: string, period: int, timeout: int, repeats: int)

  /** A row of one of the channel instance tables (`tablename` names the table). */
  datatype Channel = Channel(tablename: string, id: int, channelId: int, enabled: bool, login: bool)

  datatype Parser = Parser(id: int, channelId: int, functionName: string, enabled: bool, deleted: bool)

  /** The three tables the operations touch. */
  datatype Db = Db(channels: seq<Channel>, parsers: seq<Parser>, tasks: seq<Task>)

  const Poll := "msg_poll"
  const Parse := "msg_parse"
  const GcmTable := "msg_gcm_channel"

  /** The task schedule_task creates: queued, every 300 s, timeout 300 s, unlimited repeats. */
  function NewTask(fn: string, args: TaskArgs): Task {
    Task(fn, args, "QUEUED", 300, 300, 0)
  }

  predicate IsActive(t: Task, fn: string, args: TaskArgs) {
    t.functionName == fn && t.args == args && IsActiveStatus(t.status)
  }

  /** The task query of the enable/disable functions finds a row. */
  predicate HasActive(tasks: seq<Task>, fn: string, args: TaskArgs) {
    exists i :: 0 <= i < |tasks| && IsActive(tasks[i], fn, args)
  }

  function CountActive(tasks: seq<Task>, fn: string, args: TaskArgs): nat {
    CountIf(tasks, (t: Task) => IsActive(t, fn, args))
  }

  /** Schedule a task unless an active one with the same function and args exists. */
  function ScheduleOnce(tasks: seq<Task>, fn: string, args: TaskArgs): (r: seq<Task>)
    ensures HasActive(r, fn, args)
    ensures HasActive(tasks, fn, args) ==> r == tasks
    ensures !HasActive(tasks, fn, args) ==> r == tasks + [NewTask(fn, args)]
  {
    if HasActive(tasks, fn, args) then tasks
    else
      var r := tasks + [NewTask(fn, args)];
      assert IsActive(r[|tasks|], fn, args);
      r
  }

  /** `db(query).update(status="STOPPED")` on the active tasks with this function and args. */
  function StopAll(tasks: seq<Task>, fn: string, args: TaskArgs): (r: seq<Task>)
    ensures |r| == |tasks|
    ensures forall i :: 0 <= i < |r| ==> r[i] == if IsActive(tasks[i], fn, args) then tasks[i].(status := "STOPPED") else tasks[i]
    ensures !HasActive(r, fn, args)
    ensures Stops(tasks, r)
  {
    seq(|tasks|, i requires 0 <= i < |tasks| =>
      if IsActive(tasks[i], fn, args) then tasks[i].(status := "STOPPED") else tasks[i])
  }

  /** `after` is `before` with some tasks set to STOPPED. */
  ghost predicate Stops(before: seq<Task>, after: seq<Task>) {
    |before| == |after| &&
    forall i :: 0 <= i < |before| ==> after[i] == before[i] || after[i] == before[i].(status := "STOPPED")
  }

  lemma StopsNoNewActive(before: seq<Task>, after: seq<Task>, fn: string, args: TaskArgs)
    requires Stops(before, after)
    ensures HasActive(after, fn, args) ==> HasActive(before, fn, args)
  {
    if HasActive(after, fn, args) {
      var i :| 0 <= i < |after| && IsActive(after[i], fn, args);
      assert IsActive(before[i], fn, args);
    }
  }

  lemma StopsTrans(a: seq<Task>, b: seq<Task>, c: seq<Task>)
    requires Stops(a, b) && Stops(b, c)
    ensures Stops(a, c)
  {
  }

  /** Active tasks found before are still there after a prefix-preserving change. */
  lemma PrefixKeepsActive(before: seq<Task>, after: seq<Task>, fn: string, args: TaskArgs)
    requires before <= after
    ensures HasActive(before, fn, args) ==> HasActive(after, fn, args)
  {
    if HasActive(before, fn, args) {
      var i :| 0 <= i < |before| && IsActive(before[i], fn, args);
      assert after[i] == before[i];
    }
  }

  lemma {:induction false} CountPositive(tasks: seq<Task>, fn: string, args: TaskArgs)
    ensures CountActive(tasks, fn, args) > 0 <==> HasActive(tasks, fn, args)
    decreases |tasks|
  {
    if tasks != [] {
      CountPositive(tasks[1..], fn, args);
      if HasActive(tasks, fn, args) && !IsActive(tasks[0], fn, args) {
        var i :| 0 <= i < |tasks| && IsActive(tasks[i], fn, args);
        assert IsActive(tasks[1..][i - 1], fn, args);
      }
      if HasActive(tasks[1..], fn, args) {
        var i :| 0 <= i < |tasks[1..]| && IsActive(tasks[1..][i], fn, args);
        assert IsActive(tasks[i + 1], fn, args);
      }
    }
  }

  /** Scheduling once leaves one active task where there was none, and the count as it was otherwise. */
  lemma ScheduleOnceCount(tasks: seq<Task>, fn: string, args: TaskArgs)
    ensures var n := CountActive(tasks, fn, args);
            CountActive(ScheduleOnce(tasks, fn, args), fn, args) == if n == 0 then 1 else n
  {
    CountPositive(tasks, fn, args);
    var p := (t: Task) => IsActive(t, fn, args);
    if !HasActive(tasks, fn, args) {
      FilterAppend(tasks, [NewTask(fn, args)], p);
      assert CountIf([NewTask(fn, args)], p) == 1 by {
        assert [NewTask(fn, args)][1..] == [];
      }
    }
  }

  /** Scheduling for one (function, args) does not change the count for another. */
  lemma ScheduleOnceOther(tasks: seq<Task>, fn: string, args: TaskArgs, fn': string, args': TaskArgs)
    requires fn != fn' || args != args'
    ensures CountActive(ScheduleOnce(tasks, fn, args), fn', args') == CountActive(tasks, fn', args')
  {
    var p := (t: Task) => IsActive(t, fn', args');
    if !HasActive(tasks, fn, args) {
      FilterAppend(tasks, [NewTask(fn, args)], p);
      assert CountIf([NewTask(fn, args)], p) == 0 by {
        assert [NewTask(fn, args)][1..] == [];
      }
    }
  }

  /** Scheduling is idempotent. */
  lemma ScheduleOnceIdempotent(tasks: seq<Task>, fn: string, args: TaskArgs)
    ensures ScheduleOnce(ScheduleOnce(tasks, fn, args), fn, args) == ScheduleOnce(tasks, fn, args)
  {
  }

  // ---------------------------------------------------------------------------
  // Lookups

  function ChannelIndex(channels: seq<Channel>, tablename: string, channelId: int): Option<nat> {
    FirstIndex(channels, (c: Channel) => c.tablename == tablename && c.channelId == channelId)
  }

  function ParserIndex(parsers: seq<Parser>, id: int): Option<nat> {
    FirstIndex(parsers, (p: Parser) => p.id == id)
  }

  /** The parser belongs to the channel and, unless deleted ones are wanted, is not deleted. */
  predicate Selected(p: Parser, channelId: int, withDeleted: bool) {
    p.channelId == channelId && (withDeleted || !p.deleted)
  }

  /** The ids of the parsers of a channel, optionally including deleted ones. */
  function ParserIds(parsers: seq<Parser>, channelId: int, withDeleted: bool): (ids: seq<int>)
    ensures forall k :: 0 <= k < |parsers| && Selected(parsers[k], channelId, withDeleted) ==> parsers[k].id in ids
    ensures forall id :: id in ids ==> exists k :: 0 <= k < |parsers| && parsers[k].id == id && Selected(parsers[k], channelId, withDeleted)
  {
    if parsers == [] then []
    else
      var rest := ParserIds(parsers[1..], channelId, withDeleted);
      var p := parsers[0];
      assert forall id :: id in rest ==> exists k :: 0 <= k < |parsers| && parsers[k].id == id && Selected(parsers[k], channelId, withDeleted) by {
        forall id | id in rest
          ensures exists k :: 0 <= k < |parsers| && parsers[k].id == id && Selected(parsers[k], channelId, withDeleted)
        {
          var k :| 0 <= k < |parsers[1..]| && parsers[1..][k].id == id && Selected(parsers[1..][k], channelId, withDeleted);
          assert parsers[k + 1] == parsers[1..][k];
        }
      }
      assert forall k :: 1 <= k < |parsers| ==> parsers[k] == parsers[1..][k - 1];
      (if Selected(p, channelId, withDeleted) then [p.id] else []) + rest
  }

  /** Ids are unique within each table; channel ids are unique across channel tables. */
  ghost predicate ValidDb(db: Db) {
    && (forall i, j :: 0 <= i < j < |db.parsers| ==> db.parsers[i].id != db.parsers[j].id)
    && (forall i, j :: 0 <= i < j < |db.channels| ==> db.channels[i].channelId != db.channels[j].channelId)
    && (forall i, j :: 0 <= i < j < |db.channels| ==>
          db.channels[i].tablename != db.channels[j].tablename || db.channels[i].id != db.channels[j].id)
  }

  /** A parser selection picks only parsers of its channel: one whose channel differs or that it filters out is not listed. */
  lemma ParserIdsOfChannel(parsers: seq<Parser>, channelId: int, withDeleted: bool, k: nat)
    requires forall i, j :: 0 <= i < j < |parsers| ==> parsers[i].id != parsers[j].id
    requires k < |parsers| && !Selected(parsers[k], channelId, withDeleted)
    ensures parsers[k].id !in ParserIds(parsers, channelId, withDeleted)
  {
    forall k' | 0 <= k' < |parsers| && parsers[k'].id == parsers[k].id ensures k' == k {}
  }

  /** `args` are the parse task args of one of the parsers whose id is listed. */
  ghost predicate ListedParseArgs(parsers: seq<Parser>, ids: seq<int>, args: TaskArgs) {
    exists k :: 0 <= k < |parsers| && parsers[k].id in ids && args == ParseArgs(parsers[k].channelId, parsers[k].functionName)
  }

  /** The parse args of the parsers a channel's selection lists belong to that channel. */
  lemma ListedArgsOfChannel(parsers: seq<Parser>, channelId: int, withDeleted: bool, args: TaskArgs)
    requires forall i, j :: 0 <= i < j < |parsers| ==> parsers[i].id != parsers[j].id
    requires ListedParseArgs(parsers, ParserIds(parsers, channelId, withDeleted), args)
    ensures args.ParseArgs? && args.channelId == channelId
  {
    var k :| 0 <= k < |parsers| && parsers[k].id in ParserIds(parsers, channelId, withDeleted) &&
             args == ParseArgs(parsers[k].channelId, parsers[k].functionName);
    var k' :| 0 <= k' < |parsers| && parsers[k'].id == parsers[k].id && Selected(parsers[k'], channelId, withDeleted);
    assert k' == k;
  }

  /** The parser rows keep their ids, channels, functions and deleted flags. */
  ghost predicate SameParsers(a: seq<Parser>, b: seq<Parser>) {
    |a| == |b| && forall k :: 0 <= k < |a| ==> b[k] == a[k].(enabled := b[k].enabled)
  }

  /** Listing is kept when the flags change and more ids are listed. */
  lemma ListedWiden(a: seq<Parser>, b: seq<Parser>, ids: seq<int>, ids': seq<int>, args: TaskArgs)
    requires SameParsers(a, b)
    requires forall id :: id in ids ==> id in ids'
    requires ListedParseArgs(b, ids, args)
    ensures ListedParseArgs(a, ids', args)
  {
    var k :| 0 <= k < |b| && b[k].id in ids && args == ParseArgs(b[k].channelId, b[k].functionName);
    assert a[k].id == b[k].id && a[k].channelId == b[k].channelId && a[k].functionName == b[k].functionName;
  }

  // ---------------------------------------------------------------------------
  // Parsers

  /** parser_enable: the new state and the message (Err when the parser does not exist). */
  function ParserEnableSpec(db: Db, id: int): (Db, Result<string>)
  {
    match ParserIndex(db.parsers, id)
    case None => (db, Err(NotFound))
    case Some(k) =>
      var p := db.parsers[k];
      var parsers := if !p.enabled then db.parsers[k := p.(enabled := true)] else db.parsers;
      var args := ParseArgs(p.channelId, p.functionName);
      var msg := if HasActive(db.tasks, Parse, args) then "Parser already enabled" else "Parser enabled";
      (Db(db.channels, parsers, ScheduleOnce(db.tasks, Parse, args)), Ok(msg))
  }

  /** parser_disable. */
  function ParserDisableSpec(db: Db, id: int): (Db, Result<string>)
  {
    match ParserIndex(db.parsers, id)
    case None => (db, Err(NotFound))
    case Some(k) =>
      var p := db.parsers[k];
      var parsers := if p.enabled then db.parsers[k := p.(enabled := false)] else db.parsers;
      var args := ParseArgs(p.channelId, p.functionName);
      if HasActive(db.tasks, Parse, args) then
        (Db(db.channels, parsers, StopAll(db.tasks, Parse, args)), Ok("Parser disabled"))
      else
        (Db(db.channels, parsers, db.tasks), Ok("Parser already disabled"))
  }

  /** parser_enabled: the first parser row of the channel exists and is enabled. */
  function ParserEnabled(parsers: seq<Parser>, channelId: int): (r: bool)
    ensures r <==> exists k :: 0 <= k < |parsers| && parsers[k].channelId == channelId && parsers[k].enabled &&
                              forall j :: 0 <= j < k ==> parsers[j].channelId != channelId
  {
    var k := FirstIndex(parsers, (p: Parser) => p.channelId == channelId);
    k.Some? && parsers[k.value].enabled
  }

  /** The parser loop of channel_enable. */
  function EnableParsers(db: Db, ids: seq<int>): Db
    decreases |ids|
  {
    if ids == [] then db else EnableParsers(ParserEnableSpec(db, ids[0]).0, ids[1..])
  }

  /** The parser loop of channel_disable. */
  function DisableParsers(db: Db, ids: seq<int>): Db
    decreases |ids|
  {
    if ids == [] then db else DisableParsers(ParserDisableSpec(db, ids[0]).0, ids[1..])
  }

  lemma EnableParsersStep(db: Db, ids: seq<int>, i: nat)
    requires i < |ids|
    ensures EnableParsers(db, ids[i..]) == EnableParsers(ParserEnableSpec(db, ids[i]).0, ids[i + 1..])
  {
    assert ids[i..][1..] == ids[i + 1..];
  }

  lemma DisableParsersStep(db: Db, ids: seq<int>, i: nat)
    requires i < |ids|
    ensures DisableParsers(db, ids[i..]) == DisableParsers(ParserDisableSpec(db, ids[i]).0, ids[i + 1..])
  {
    assert ids[i..][1..] == ids[i + 1..];
  }

  /** Enabling a parser changes only its flag and appends at most one parse task. */
  lemma ParserEnableFrame(db: Db, id: int)
    ensures var db' := ParserEnableSpec(db, id).0;
            && db'.channels == db.channels
            && SameParsers(db.parsers, db'.parsers)
            && (forall k :: 0 <= k < |db.parsers| && db.parsers[k].enabled ==> db'.parsers[k].enabled)
            && (forall k :: 0 <= k < |db.parsers| && db.parsers[k].id != id ==> db'.parsers[k] == db.parsers[k])
            && db.tasks <= db'.tasks
            && forall t :: t in db'.tasks[|db.tasks|..] ==> t.functionName == Parse && ListedParseArgs(db.parsers, [id], t.args)
  {
    var db' := ParserEnableSpec(db, id).0;
    forall t | t in db'.tasks[|db.tasks|..] ensures t.functionName == Parse && ListedParseArgs(db.parsers, [id], t.args) {
      var k := ParserIndex(db.parsers, id).value;
      assert db.parsers[k].id in [id];
    }
  }

  lemma ParserDisableFrame(db: Db, id: int)
    ensures var db' := ParserDisableSpec(db, id).0;
            && db'.channels == db.channels
            && SameParsers(db.parsers, db'.parsers)
            && (forall k :: 0 <= k < |db.parsers| && !db.parsers[k].enabled ==> !db'.parsers[k].enabled)
            && (forall k :: 0 <= k < |db.parsers| && db.parsers[k].id != id ==> db'.parsers[k] == db.parsers[k])
            && Stops(db.tasks, db'.tasks)
            && forall i :: 0 <= i < |db.tasks| && !(db.tasks[i].functionName == Parse && ListedParseArgs(db.parsers, [id], db.tasks[i].args)) ==>
                 db'.tasks[i] == db.tasks[i]
  {
    var db' := ParserDisableSpec(db, id).0;
    forall i | 0 <= i < |db.tasks| && db'.tasks[i] != db.tasks[i]
      ensures db.tasks[i].functionName == Parse && ListedParseArgs(db.parsers, [id], db.tasks[i].args)
    {
      var k := ParserIndex(db.parsers, id).value;
      assert db.parsers[k].id in [id];
    }
  }

  /**
   * After the enable loop every parser in the list is enabled and has an
   * active parse task; channels are untouched, flags only go up, parsers
   * not in the list are unchanged, tasks are only appended, and every
   * appended task is the parse task of a listed parser.
   */
  lemma {:induction false} EnableParsersCascade(db: Db, ids: seq<int>)
    requires ValidDb(db)
    ensures var db' := EnableParsers(db, ids);
            && ValidDb(db')
            && db'.channels == db.channels
            && SameParsers(db.parsers, db'.parsers)
            && (forall k :: 0 <= k < |db.parsers| && db.parsers[k].enabled ==> db'.parsers[k].enabled)
            && (forall k :: 0 <= k < |db.parsers| && db.parsers[k].id !in ids ==> db'.parsers[k] == db.parsers[k])
            && db.tasks <= db'.tasks
            && (forall t :: t in db'.tasks[|db.tasks|..] ==> t.functionName == Parse && ListedParseArgs(db.parsers, ids, t.args))
            && forall k :: 0 <= k < |db'.parsers| && db'.parsers[k].id in ids ==>
                 db'.parsers[k].enabled && HasActive(db'.tasks, Parse, ParseArgs(db'.parsers[k].channelId, db'.parsers[k].functionName))
    decreases |ids|
  {
    if ids != [] {
      var db1 := ParserEnableSpec(db, ids[0]).0;
      ParserEnableFrame(db, ids[0]);
      EnableParsersCascade(db1, ids[1..]);
      var db' := EnableParsers(db, ids);
      assert db' == EnableParsers(db1, ids[1..]);
      forall t | t in db'.tasks[|db.tasks|..] ensures t.functionName == Parse && ListedParseArgs(db.parsers, ids, t.args) {
        var i :| 0 <= i < |db'.tasks[|db.tasks|..]| && db'.tasks[|db.tasks|..][i] == t;
        if i < |db1.tasks| - |db.tasks| {
          assert t == db1.tasks[|db.tasks|..][i];
          ListedWiden(db.parsers, db.parsers, [ids[0]], ids, t.args);
        } else {
          assert t == db'.tasks[|db1.tasks|..][i - (|db1.tasks| - |db.tasks|)];
          ListedWiden(db.parsers, db1.parsers, ids[1..], ids, t.args);
        }
      }
      forall k | 0 <= k < |db'.parsers| && db'.parsers[k].id in ids
        ensures db'.parsers[k].enabled && HasActive(db'.tasks, Parse, ParseArgs(db'.parsers[k].channelId, db'.parsers[k].functionName))
      {
        if db'.parsers[k].id == ids[0] {
          assert ParserIndex(db.parsers, ids[0]) == Some(k);
          var args := ParseArgs(db.parsers[k].channelId, db.parsers[k].functionName);
          assert HasActive(db1.tasks, Parse, args);
          PrefixKeepsActive(db1.tasks, db'.tasks, Parse, args);
        } else {
          assert db'.parsers[k].id in ids[1..];
        }
      }
    }
  }

  /**
   * After the disable loop every parser in the list is disabled and has no
   * active parse task; parsers not in the list are unchanged, tasks are
   * only stopped, and only the parse tasks of listed parsers.
   */
  lemma {:induction false} DisableParsersCascade(db: Db, ids: seq<int>)
    requires ValidDb(db)
    ensures var db' := DisableParsers(db, ids);
            && ValidDb(db')
            && db'.channels == db.channels
            && SameParsers(db.parsers, db'.parsers)
            && (forall k :: 0 <= k < |db.parsers| && !db.parsers[k].enabled ==> !db'.parsers[k].enabled)
            && (forall k :: 0 <= k < |db.parsers| && db.parsers[k].id !in ids ==> db'.parsers[k] == db.parsers[k])
            && Stops(db.tasks, db'.tasks)
            && (forall i :: 0 <= i < |db.tasks| && !(db.tasks[i].functionName == Parse && ListedParseArgs(db.parsers, ids, db.tasks[i].args)) ==>
                  db'.tasks[i] == db.tasks[i])
            && forall k :: 0 <= k < |db'.parsers| && db'.parsers[k].id in ids ==>
                 !db'.parsers[k].enabled && !HasActive(db'.tasks, Parse, ParseArgs(db'.parsers[k].channelId, db'.parsers[k].functionName))
    decreases |ids|
  {
    if ids != [] {
      var db1 := ParserDisableSpec(db, ids[0]).0;
      ParserDisableFrame(db, ids[0]);
      DisableParsersCascade(db1, ids[1..]);
      var db2 := DisableParsers(db, ids);
      assert db2 == DisableParsers(db1, ids[1..]);
      StopsTrans(db.tasks, db1.tasks, db2.tasks);
      forall i | 0 <= i < |db.tasks| && db2.tasks[i] != db.tasks[i]
        ensures db.tasks[i].functionName == Parse && ListedParseArgs(db.parsers, ids, db.tasks[i].args)
      {
        if db1.tasks[i] != db.tasks[i] {
          ListedWiden(db.parsers, db.parsers, [ids[0]], ids, db.tasks[i].args);
        } else {
          ListedWiden(db.parsers, db1.parsers, ids[1..], ids, db.tasks[i].args);
        }
      }
      forall k | 0 <= k < |db2.parsers| && db2.parsers[k].id in ids
        ensures !db2.parsers[k].enabled && !HasActive(db2.tasks, Parse, ParseArgs(db2.parsers[k].channelId, db2.parsers[k].functionName))
      {
        if db2.parsers[k].id == ids[0] {
          assert ParserIndex(db.parsers, ids[0]) == Some(k);
          var args := ParseArgs(db.parsers[k].channelId, db.parsers[k].functionName);
          assert !HasActive(db1.tasks, Parse, args);
          StopsNoNewActive(db1.tasks, db2.tasks, Parse, args);
        } else {
          assert db2.parsers[k].id in ids[1..];
        }
      }
    }
  }

  // ---------------------------------------------------------------------------
  // Channels

  /** The channel row `k` with its flag set to `flag`, written only when it differs. */
  function SetChannelFlag(db: Db, k: nat, flag: bool): (r: Db)
    requires k < |db.channels|
    ensures r.channels == db.channels[k := db.channels[k].(enabled := flag)]
    ensures r.parsers == db.parsers && r.tasks == db.tasks
  {
    if db.channels[k].enabled != flag then db.(channels := db.channels[k := db.channels[k].(enabled := flag)]) else db
  }

  /** The poll task step of channel_enable: schedule it unless one is active. */
  function PollEnable(db: Db, args: TaskArgs): (Db, Result<string>) {
    if HasActive(db.tasks, Poll, args) then (db, Ok("Channel already enabled"))
    else (db.(tasks := db.tasks + [NewTask(Poll, args)]), Ok("Channel enabled"))
  }

  /** The poll task step of channel_disable: stop the active ones. */
  function PollDisable(db: Db, args: TaskArgs): (Db, Result<string>) {
    if HasActive(db.tasks, Poll, args) then (db.(tasks := StopAll(db.tasks, Poll, args)), Ok("Channel disabled"))
    else (db, Ok("Channel already disabled"))
  }

  /** channel_enable. */
  function ChannelEnableSpec(db: Db, tablename: string, channelId: int): (Db, Result<string>)
  {
    match ChannelIndex(db.channels, tablename, channelId)
    case None => (db, Err(NotFound))
    case Some(k) =>
      var db1 := SetChannelFlag(db, k, true);
      PollEnable(EnableParsers(db1, ParserIds(db1.parsers, channelId, false)), PollArgs(tablename, channelId))
  }

  /** channel_disable. */
  function ChannelDisableSpec(db: Db, tablename: string, channelId: int): (Db, Result<string>)
  {
    match ChannelIndex(db.channels, tablename, channelId)
    case None => (db, Err(NotFound))
    case Some(k) =>
      var db1 := SetChannelFlag(db, k, false);
      PollDisable(DisableParsers(db1, ParserIds(db1.parsers, channelId, true)), PollArgs(tablename, channelId))
  }

  /** Enabling the parsers never touches poll tasks. */
  lemma ParseTasksKeepPolls(before: seq<Task>, after: seq<Task>, args: TaskArgs)
    requires before <= after
    requires forall t :: t in after[|before|..] ==> t.functionName == Parse
    ensures CountActive(after, Poll, args) == CountActive(before, Poll, args)
    ensures HasActive(after, Poll, args) <==> HasActive(before, Poll, args)
  {
    var p := (t: Task) => IsActive(t, Poll, args);
    var tail := after[|before|..];
    assert after == before + tail;
    FilterAppend(before, tail, p);
    forall t | t in tail ensures !p(t) {}
    NoneCounted(tail, p);
    CountPositive(after, Poll, args);
    CountPositive(before, Poll, args);
  }

  lemma {:induction false} NoneCounted<T>(s: seq<T>, p: T -> bool)
    requires forall x :: x in s ==> !p(x)
    ensures CountIf(s, p) == 0
  {
    if s != [] {
      assert s[0] in s;
      NoneCounted(s[1..], p);
    }
  }

  /**
   * channel_enable keeps the tables valid, changes only the channel's own
   * flag among the channel rows, leaves the parsers of other channels and
   * the deleted ones unchanged, keeps every task, and appends only the
   * channel's poll task and parse tasks of the channel.
   */
  lemma ChannelEnableFrame(db: Db, tablename: string, channelId: int)
    requires ValidDb(db)
    requires ChannelIndex(db.channels, tablename, channelId).Some?
    ensures var k := ChannelIndex(db.channels, tablename, channelId).value;
            var db' := ChannelEnableSpec(db, tablename, channelId).0;
            && ValidDb(db')
            && db'.channels == db.channels[k := db.channels[k].(enabled := true)]
            && |db'.parsers| == |db.parsers|
            && (forall j :: 0 <= j < |db.parsers| && !Selected(db.parsers[j], channelId, false) ==> db'.parsers[j] == db.parsers[j])
            && db.tasks <= db'.tasks
            && forall t :: t in db'.tasks[|db.tasks|..] ==>
                 t == NewTask(Poll, PollArgs(tablename, channelId)) ||
                 (t.functionName == Parse && t.args.ParseArgs? && t.args.channelId == channelId)
  {
    ChannelEnableParsersFrame(db, tablename, channelId);
    ChannelEnableTasksFrame(db, tablename, channelId);
  }

  /** The parser half of ChannelEnableFrame. */
  lemma ChannelEnableParsersFrame(db: Db, tablename: string, channelId: int)
    requires ValidDb(db)
    requires ChannelIndex(db.channels, tablename, channelId).Some?
    ensures var k := ChannelIndex(db.channels, tablename, channelId).value;
            var db' := ChannelEnableSpec(db, tablename, channelId).0;
            && ValidDb(db')
            && db'.channels == db.channels[k := db.channels[k].(enabled := true)]
            && |db'.parsers| == |db.parsers|
            && (forall j :: 0 <= j < |db.parsers| && !Selected(db.parsers[j], channelId, false) ==> db'.parsers[j] == db.parsers[j])
  {
    var k := ChannelIndex(db.channels, tablename, channelId).value;
    var db1 := SetChannelFlag(db, k, true);
    var ids := ParserIds(db1.parsers, channelId, false);
    EnableParsersCascade(db1, ids);
    var db' := ChannelEnableSpec(db, tablename, channelId).0;
    assert db'.parsers == EnableParsers(db1, ids).parsers;
    forall j | 0 <= j < |db.parsers| && !Selected(db.parsers[j], channelId, false) ensures db'.parsers[j] == db.parsers[j] {
      ParserIdsOfChannel(db.parsers, channelId, false, j);
    }
  }

  /** The task half of ChannelEnableFrame. */
  lemma ChannelEnableTasksFrame(db: Db, tablename: string, channelId: int)
    requires ValidDb(db)
    requires ChannelIndex(db.channels, tablename, channelId).Some?
    ensures var db' := ChannelEnableSpec(db, tablename, channelId).0;
            && db.tasks <= db'.tasks
            && forall t :: t in db'.tasks[|db.tasks|..] ==>
                 t == NewTask(Poll, PollArgs(tablename, channelId)) ||
                 (t.functionName == Parse && t.args.ParseArgs? && t.args.channelId == channelId)
  {
    var k := ChannelIndex(db.channels, tablename, channelId).value;
    var db1 := SetChannelFlag(db, k, true);
    var ids := ParserIds(db1.parsers, channelId, false);
    EnableParsersCascade(db1, ids);
    var db2 := EnableParsers(db1, ids);
    var db' := ChannelEnableSpec(db, tablename, channelId).0;
    EnableAddedTasks(db.parsers, db.tasks, db2.tasks, channelId);
    PollEnableAppends(db2, PollArgs(tablename, channelId));
    forall t | t in db'.tasks[|db.tasks|..]
      ensures t == NewTask(Poll, PollArgs(tablename, channelId)) ||
              (t.functionName == Parse && t.args.ParseArgs? && t.args.channelId == channelId)
    {
      assert db'.tasks[|db.tasks|..] == db2.tasks[|db.tasks|..] + db'.tasks[|db2.tasks|..];
    }
  }

  /** The poll step of channel_enable keeps every task and appends at most the new poll task. */
  lemma PollEnableAppends(db: Db, args: TaskArgs)
    ensures var db' := PollEnable(db, args).0;
            && db'.channels == db.channels && db'.parsers == db.parsers
            && db.tasks <= db'.tasks
            && forall t :: t in db'.tasks[|db.tasks|..] ==> t == NewTask(Poll, args)
  {
  }

  /** The tasks the enable loop appends for a channel's selection are parse tasks of that channel. */
  lemma EnableAddedTasks(parsers: seq<Parser>, before: seq<Task>, after: seq<Task>, channelId: int)
    requires forall i, j :: 0 <= i < j < |parsers| ==> parsers[i].id != parsers[j].id
    requires before <= after
    requires forall t :: t in after[|before|..] ==> t.functionName == Parse && ListedParseArgs(parsers, ParserIds(parsers, channelId, false), t.args)
    ensures forall t :: t in after[|before|..] ==> t.functionName == Parse && t.args.ParseArgs? && t.args.channelId == channelId
  {
    forall t | t in after[|before|..] ensures t.args.ParseArgs? && t.args.channelId == channelId {
      ListedArgsOfChannel(parsers, channelId, false, t.args);
    }
  }

  /**
   * channel_disable keeps the tables valid, changes only the channel's own
   * flag among the channel rows, leaves the parsers of other channels
   * unchanged, and only stops tasks: the channel's active poll tasks and
   * parse tasks of the channel.
   */
  lemma ChannelDisableFrame(db: Db, tablename: string, channelId: int)
    requires ValidDb(db)
    requires ChannelIndex(db.channels, tablename, channelId).Some?
    ensures var k := ChannelIndex(db.channels, tablename, channelId).value;
            var db' := ChannelDisableSpec(db, tablename, channelId).0;
            && ValidDb(db')
            && db'.channels == db.channels[k := db.channels[k].(enabled := false)]
            && |db'.parsers| == |db.parsers|
            && (forall j :: 0 <= j < |db.parsers| && db.parsers[j].channelId != channelId ==> db'.parsers[j] == db.parsers[j])
            && Stops(db.tasks, db'.tasks)
            && forall i :: 0 <= i < |db.tasks| && !IsActive(db.tasks[i], Poll, PollArgs(tablename, channelId)) &&
                           !(db.tasks[i].functionName == Parse && db.tasks[i].args.ParseArgs? && db.tasks[i].args.channelId == channelId) ==>
                 db'.tasks[i] == db.tasks[i]
  {
    var k := ChannelIndex(db.channels, tablename, channelId).value;
    var db1 := SetChannelFlag(db, k, false);
    var ids := ParserIds(db1.parsers, channelId, true);
    DisableParsersCascade(db1, ids);
    var db2 := DisableParsers(db1, ids);
    var db' := ChannelDisableSpec(db, tablename, channelId).0;
    StopsTrans(db.tasks, db2.tasks, db'.tasks);
    forall j | 0 <= j < |db.parsers| && db.parsers[j].channelId != channelId ensures db'.parsers[j] == db.parsers[j] {
      ParserIdsOfChannel(db.parsers, channelId, true, j);
    }
    forall i | 0 <= i < |db.tasks| && db2.tasks[i] != db.tasks[i]
      ensures db.tasks[i].functionName == Parse && db.tasks[i].args.ParseArgs? && db.tasks[i].args.channelId == channelId
    {
      ListedArgsOfChannel(db.parsers, channelId, true, db.tasks[i].args);
    }
  }

  /**
   * channel_enable on an existing channel: the channel is enabled, every
   * non-deleted parser of it is enabled with an active parse task, there is
   * an active poll task, the message says whether one existed before (it is
   * decided by the task table, not by the old flag), and no other channel
   * row changes. Parsers of other channels and deleted parsers keep their
   * rows; every task is kept, and only the channel's poll task and parse
   * tasks of the channel are added.
   */
  lemma ChannelEnableEffect(db: Db, tablename: string, channelId: int)
    requires ValidDb(db)
    requires ChannelIndex(db.channels, tablename, channelId).Some?
    ensures var k := ChannelIndex(db.channels, tablename, channelId).value;
            var (db', r) := ChannelEnableSpec(db, tablename, channelId);
            var args := PollArgs(tablename, channelId);
            && ValidDb(db')
            && db'.channels == db.channels[k := db.channels[k].(enabled := true)]
            && HasActive(db'.tasks, Poll, args)
            && r == Ok(if HasActive(db.tasks, Poll, args) then "Channel already enabled" else "Channel enabled")
            && CountActive(db'.tasks, Poll, args) == (if HasActive(db.tasks, Poll, args) then CountActive(db.tasks, Poll, args) else 1)
            && (!HasActive(db.tasks, Poll, args) ==> |db'.tasks| > 0 && db'.tasks[|db'.tasks| - 1] == Task(Poll, args, "QUEUED", 300, 300, 0))
            && (forall j :: 0 <= j < |db'.parsers| && db'.parsers[j].channelId == channelId && !db'.parsers[j].deleted ==>
                  db'.parsers[j].enabled && HasActive(db'.tasks, Parse, ParseArgs(channelId, db'.parsers[j].functionName)))
            && |db'.parsers| == |db.parsers|
            && (forall j :: 0 <= j < |db.parsers| && !Selected(db.parsers[j], channelId, false) ==> db'.parsers[j] == db.parsers[j])
            && db.tasks <= db'.tasks
            && forall t :: t in db'.tasks[|db.tasks|..] ==>
                 t == NewTask(Poll, args) || (t.functionName == Parse && t.args.ParseArgs? && t.args.channelId == channelId)
  {
    ChannelEnableFrame(db, tablename, channelId);
    ChannelEnableParsers(db, tablename, channelId);
    var k := ChannelIndex(db.channels, tablename, channelId).value;
    var db1 := SetChannelFlag(db, k, true);
    var db2 := EnableParsers(db1, ParserIds(db1.parsers, channelId, false));
    var args := PollArgs(tablename, channelId);
    EnableParsersKeepPolls(db1, ParserIds(db1.parsers, channelId, false), args);
    CountPositive(db.tasks, Poll, args);
    if !HasActive(db2.tasks, Poll, args) {
      ScheduleOnceCount(db2.tasks, Poll, args);
    }
  }

  /** The parser loop of channel_enable leaves the poll tasks as they were. */
  lemma EnableParsersKeepPolls(db: Db, ids: seq<int>, args: TaskArgs)
    requires ValidDb(db)
    ensures var db' := EnableParsers(db, ids);
            && CountActive(db'.tasks, Poll, args) == CountActive(db.tasks, Poll, args)
            && (HasActive(db'.tasks, Poll, args) <==> HasActive(db.tasks, Poll, args))
  {
    EnableParsersCascade(db, ids);
    ParseTasksKeepPolls(db.tasks, EnableParsers(db, ids).tasks, args);
  }

  /** After channel_enable every live parser of the channel is enabled and has an active parse task. */
  lemma ChannelEnableParsers(db: Db, tablename: string, channelId: int)
    requires ValidDb(db)
    requires ChannelIndex(db.channels, tablename, channelId).Some?
    ensures var db' := ChannelEnableSpec(db, tablename, channelId).0;
            forall j :: 0 <= j < |db'.parsers| && db'.parsers[j].channelId == channelId && !db'.parsers[j].deleted ==>
              db'.parsers[j].enabled && HasActive(db'.tasks, Parse, ParseArgs(channelId, db'.parsers[j].functionName))
  {
    var k := ChannelIndex(db.channels, tablename, channelId).value;
    var db1 := SetChannelFlag(db, k, true);
    var ids := ParserIds(db1.parsers, channelId, false);
    var db2 := EnableParsers(db1, ids);
    EnableParsersCascade(db1, ids);
    var db' := ChannelEnableSpec(db, tablename, channelId).0;
    forall j | 0 <= j < |db'.parsers| && db'.parsers[j].channelId == channelId && !db'.parsers[j].deleted
      ensures db'.parsers[j].enabled && HasActive(db'.tasks, Parse, ParseArgs(channelId, db'.parsers[j].functionName))
    {
      assert db1.parsers[j].id in ids;
      PrefixKeepsActive(db2.tasks, db'.tasks, Parse, ParseArgs(channelId, db'.parsers[j].functionName));
    }
  }

  /** A second channel_enable reports the channel as already enabled and adds no poll task. */
  lemma ChannelEnableIdempotent(db: Db, tablename: string, channelId: int)
    requires ValidDb(db)
    requires ChannelIndex(db.channels, tablename, channelId).Some?
    ensures var db1 := ChannelEnableSpec(db, tablename, channelId).0;
            var (db2, r) := ChannelEnableSpec(db1, tablename, channelId);
            var args := PollArgs(tablename, channelId);
            && r == Ok("Channel already enabled")
            && CountActive(db2.tasks, Poll, args) == CountActive(db1.tasks, Poll, args)
  {
    ChannelEnableEffect(db, tablename, channelId);
    var db1 := ChannelEnableSpec(db, tablename, channelId).0;
    assert ChannelIndex(db1.channels, tablename, channelId).Some? by {
      var k := ChannelIndex(db.channels, tablename, channelId).value;
      assert db1.channels[k].tablename == tablename && db1.channels[k].channelId == channelId;
    }
    ChannelEnableEffect(db1, tablename, channelId);
  }

  /**
   * channel_disable on an existing channel: the channel is disabled, every
   * parser of it (deleted ones included) is disabled with no active parse
   * task, no poll task of the channel stays active, the message says
   * whether one was active, and parsers of other channels are unchanged.
   * Tasks are only stopped, and only the channel's active poll tasks and
   * parse tasks of the channel: every other task is untouched.
   */
  lemma ChannelDisableEffect(db: Db, tablename: string, channelId: int)
    requires ValidDb(db)
    requires ChannelIndex(db.channels, tablename, channelId).Some?
    ensures var k := ChannelIndex(db.channels, tablename, channelId).value;
            var (db', r) := ChannelDisableSpec(db, tablename, channelId);
            var args := PollArgs(tablename, channelId);
            && ValidDb(db')
            && db'.channels == db.channels[k := db.channels[k].(enabled := false)]
            && !HasActive(db'.tasks, Poll, args)
            && r == Ok(if HasActive(db.tasks, Poll, args) then "Channel disabled" else "Channel already disabled")
            && (forall j :: 0 <= j < |db'.parsers| && db'.parsers[j].channelId == channelId ==>
                  !db'.parsers[j].enabled && !HasActive(db'.tasks, Parse, ParseArgs(channelId, db'.parsers[j].functionName)))
            && |db'.parsers| == |db.parsers|
            && (forall j :: 0 <= j < |db.parsers| && db.parsers[j].channelId != channelId ==> db'.parsers[j] == db.parsers[j])
            && Stops(db.tasks, db'.tasks)
            && forall i :: 0 <= i < |db.tasks| && !IsActive(db.tasks[i], Poll, args) &&
                           !(db.tasks[i].functionName == Parse && db.tasks[i].args.ParseArgs? && db.tasks[i].args.channelId == channelId) ==>
                 db'.tasks[i] == db.tasks[i]
  {
    ChannelDisableFrame(db, tablename, channelId);
    ChannelDisableParsers(db, tablename, channelId);
    var k := ChannelIndex(db.channels, tablename, channelId).value;
    var db1 := SetChannelFlag(db, k, false);
    DisableParsersKeepPolls(db1, ParserIds(db1.parsers, channelId, true), PollArgs(tablename, channelId));
  }

  /** The parser loop of channel_disable stops parse tasks only: the other tasks are as they were. */
  lemma DisableParsersKeepPolls(db: Db, ids: seq<int>, args: TaskArgs)
    requires ValidDb(db)
    ensures var db' := DisableParsers(db, ids);
            && |db'.tasks| == |db.tasks|
            && (forall i :: 0 <= i < |db.tasks| && db.tasks[i].functionName != Parse ==> db'.tasks[i] == db.tasks[i])
            && (HasActive(db'.tasks, Poll, args) <==> HasActive(db.tasks, Poll, args))
  {
    DisableParsersCascade(db, ids);
    var db' := DisableParsers(db, ids);
    if HasActive(db.tasks, Poll, args) {
      var i :| 0 <= i < |db.tasks| && IsActive(db.tasks[i], Poll, args);
      assert db'.tasks[i] == db.tasks[i];
    }
    StopsNoNewActive(db.tasks, db'.tasks, Poll, args);
  }

  /** After channel_disable every parser of the channel is disabled and has no active parse task. */
  lemma ChannelDisableParsers(db: Db, tablename: string, channelId: int)
    requires ValidDb(db)
    requires ChannelIndex(db.channels, tablename, channelId).Some?
    ensures var db' := ChannelDisableSpec(db, tablename, channelId).0;
            forall j :: 0 <= j < |db'.parsers| && db'.parsers[j].channelId == channelId ==>
              !db'.parsers[j].enabled && !HasActive(db'.tasks, Parse, ParseArgs(channelId, db'.parsers[j].functionName))
  {
    var k := ChannelIndex(db.channels, tablename, channelId).value;
    var db1 := SetChannelFlag(db, k, false);
    var ids := ParserIds(db1.parsers, channelId, true);
    var db2 := DisableParsers(db1, ids);
    DisableParsersCascade(db1, ids);
    var args := PollArgs(tablename, channelId);
    var db' := ChannelDisableSpec(db, tablename, channelId).0;
    StopsTrans(db2.tasks, db2.tasks, db'.tasks);
    forall j | 0 <= j < |db'.parsers| && db'.parsers[j].channelId == channelId
      ensures !db'.parsers[j].enabled && !HasActive(db'.tasks, Parse, ParseArgs(channelId, db'.parsers[j].functionName))
    {
      assert db1.parsers[j].id in ids;
      if HasActive(db2.tasks, Poll, args) {
        StopsNoNewActive(db2.tasks, db'.tasks, Parse, ParseArgs(channelId, db'.parsers[j].functionName));
      }
    }
  }

  // ---------------------------------------------------------------------------
  // Form hooks

  /** What an onaccept hook does with the old and the new flag. */
  datatype Action = NoAction | CallEnable | CallDisable

  /**
   * channel_onaccept / msg_parser_onaccept. `recordEnabled` is the flag of
   * the record before the update, None for a create form.
   */
  function Reconcile(recordEnabled: Option<bool>, newEnabled: bool): (a: Action)
    ensures a == CallDisable <==> recordEnabled == Some(true) && !newEnabled
    ensures a == CallEnable <==> newEnabled && recordEnabled != Some(true)
  {
    match recordEnabled
    case Some(was) =>
      if was && !newEnabled then CallDisable
      else if newEnabled && !was then CallEnable
      else NoAction
    case None =>
      if newEnabled then CallEnable else NoAction
  }

  /** Reconciling twice with the same flag does nothing the second time. */
  lemma ReconcileSettles(recordEnabled: Option<bool>, newEnabled: bool)
    ensures Reconcile(Some(newEnabled), newEnabled) == NoAction
  {
  }

  /** A saved channel form: the table, the record id, its channel id and the new flags. */
  datatype ChannelForm = ChannelForm(tablename: string, id: int, channelId: int,
                                     enabled: bool, login: bool, record: Option<bool>)

  /** A saved parser form. */
  datatype ParserForm = ParserForm(id: int, enabled: bool, record: Option<bool>)

  function ChannelOnacceptSpec(db: Db, form: ChannelForm): Db {
    match Reconcile(form.record, form.enabled)
    case CallEnable => ChannelEnableSpec(db, form.tablename, form.channelId).0
    case CallDisable => ChannelDisableSpec(db, form.tablename, form.channelId).0
    case NoAction => db
  }

  /** `db(table.id != form.vars.id).update(login=False)` on one channel table. */
  function ClearLogin(channels: seq<Channel>, tablename: string, id: int): (r: seq<Channel>)
    ensures |r| == |channels|
    ensures forall j :: 0 <= j < |r| && r[j].tablename == tablename && r[j].id != id ==> !r[j].login
    ensures forall j :: 0 <= j < |r| ==> r[j].(login := channels[j].login) == channels[j]
    ensures forall j :: 0 <= j < |r| && (channels[j].tablename != tablename || channels[j].id == id) ==> r[j] == channels[j]
  {
    seq(|channels|, j requires 0 <= j < |channels| =>
      if channels[j].tablename == tablename && channels[j].id != id then channels[j].(login := false) else channels[j])
  }

  /** `db(table.id != form.vars.id).update(enabled=False)` on one channel table. */
  function ClearEnabled(channels: seq<Channel>, tablename: string, id: int): (r: seq<Channel>)
    ensures |r| == |channels|
    ensures forall j :: 0 <= j < |r| && r[j].tablename == tablename && r[j].id != id ==> !r[j].enabled
    ensures forall j :: 0 <= j < |r| ==> r[j].(enabled := channels[j].enabled) == channels[j]
    ensures forall j :: 0 <= j < |r| && (channels[j].tablename != tablename || channels[j].id == id) ==> r[j] == channels[j]
  {
    seq(|channels|, j requires 0 <= j < |channels| =>
      if channels[j].tablename == tablename && channels[j].id != id then channels[j].(enabled := false) else channels[j])
  }

  /** The saved record of the form is in its table. */
  predicate FormSaved(channels: seq<Channel>, form: ChannelForm) {
    exists k :: 0 <= k < |channels| && channels[k].tablename == form.tablename &&
                channels[k].id == form.id && channels[k].channelId == form.channelId
  }

  /** The normal onaccept processing changes at most the enabled flag of the form's own record. */
  lemma ChannelOnacceptFrame(db: Db, form: ChannelForm)
    requires ValidDb(db) && FormSaved(db.channels, form)
    ensures var db' := ChannelOnacceptSpec(db, form);
            && ValidDb(db')
            && |db'.channels| == |db.channels|
            && forall j :: 0 <= j < |db.channels| ==>
                 db'.channels[j] == db.channels[j].(enabled := db'.channels[j].enabled) &&
                 (db.channels[j].tablename != form.tablename || db.channels[j].id != form.id ==> db'.channels[j] == db.channels[j])
  {
    var k :| 0 <= k < |db.channels| && db.channels[k].tablename == form.tablename &&
             db.channels[k].id == form.id && db.channels[k].channelId == form.channelId;
    assert ChannelIndex(db.channels, form.tablename, form.channelId) == Some(k);
    match Reconcile(form.record, form.enabled)
    case CallEnable =>
      ChannelEnableFrame(db, form.tablename, form.channelId);
      EnabledOnly(db.channels, k, true, form.tablename, form.id);
    case CallDisable =>
      ChannelDisableFrame(db, form.tablename, form.channelId);
      EnabledOnly(db.channels, k, false, form.tablename, form.id);
    case NoAction =>
  }

  /** Setting the enabled flag of row k changes no other field, and no row of another record. */
  lemma EnabledOnly(chs: seq<Channel>, k: nat, flag: bool, tablename: string, id: int)
    requires k < |chs| && chs[k].tablename == tablename && chs[k].id == id
    ensures var chs' := chs[k := chs[k].(enabled := flag)];
            forall j :: 0 <= j < |chs| ==>
              chs'[j] == chs[j].(enabled := chs'[j].enabled) &&
              (chs[j].tablename != tablename || chs[j].id != id ==> chs'[j] == chs[j])
  {
  }

  /**
   * msg_facebook_channel_onaccept and twitter_channel_onaccept: a form saved
   * with `login` leaves no other record of its table with `login` set.
   */
  lemma LoginExclusive(db: Db, form: ChannelForm)
    requires ValidDb(db) && FormSaved(db.channels, form)
    ensures var db1 := if form.login then db.(channels := ClearLogin(db.channels, form.tablename, form.id)) else db;
            var db' := ChannelOnacceptSpec(db1, form);
            form.login ==> forall j :: 0 <= j < |db'.channels| && db'.channels[j].tablename == form.tablename && db'.channels[j].id != form.id ==>
                             !db'.channels[j].login
  {
    if form.login {
      var db1 := db.(channels := ClearLogin(db.channels, form.tablename, form.id));
      assert ValidDb(db1);
      assert FormSaved(db1.channels, form) by {
        var k :| 0 <= k < |db.channels| && db.channels[k].tablename == form.tablename &&
                 db.channels[k].id == form.id && db.channels[k].channelId == form.channelId;
        assert db1.channels[k].tablename == form.tablename && db1.channels[k].id == form.id;
      }
      ChannelOnacceptFrame(db1, form);
      var db' := ChannelOnacceptSpec(db1, form);
      forall j | 0 <= j < |db'.channels| && db'.channels[j].tablename == form.tablename && db'.channels[j].id != form.id
        ensures !db'.channels[j].login
      {
        assert j < |db1.channels|;
        assert !db1.channels[j].login;
      }
    }
  }

  /** msg_gcm_channel_onaccept: a GCM channel saved enabled is the only enabled one. */
  lemma GcmExclusive(db: Db, form: ChannelForm)
    requires form.tablename == GcmTable
    requires ValidDb(db) && FormSaved(db.channels, form)
    ensures var db1 := if form.enabled then db.(channels := ClearEnabled(db.channels, GcmTable, form.id)) else db;
            var db' := ChannelOnacceptSpec(db1, form);
            form.enabled ==> forall j :: 0 <= j < |db'.channels| && db'.channels[j].tablename == GcmTable && db'.channels[j].id != form.id ==>
                               !db'.channels[j].enabled
  {
    if form.enabled {
      var db1 := db.(channels := ClearEnabled(db.channels, GcmTable, form.id));
      assert ValidDb(db1);
      assert FormSaved(db1.channels, form) by {
        var k :| 0 <= k < |db.channels| && db.channels[k].tablename == form.tablename &&
                 db.channels[k].id == form.id && db.channels[k].channelId == form.channelId;
        assert db1.channels[k].tablename == form.tablename && db1.channels[k].id == form.id;
      }
      ChannelOnacceptFrame(db1, form);
      var db' := ChannelOnacceptSpec(db1, form);
      forall j | 0 <= j < |db'.channels| && db'.channels[j].tablename == form.tablename && db'.channels[j].id != form.id
        ensures !db'.channels[j].enabled
      {
        assert j < |db1.channels|;
        assert !db1.channels[j].enabled;
      }
    }
  }

  // ---------------------------------------------------------------------------
  // The tables, updated in place

  class MessagingDb {
    var channels: seq<Channel>
    var parsers: seq<Parser>
    var tasks: seq<Task>

    function State(): Db
      reads this
    {
      Db(channels, parsers, tasks)
    }

    constructor (channels: seq<Channel>, parsers: seq<Parser>, tasks: seq<Task>)
      ensures State() == Db(channels, parsers, tasks)
    {
      this.channels := channels;
      this.parsers := parsers;
      this.tasks := tasks;
    }

    /** parser_enabled. */
    function IsParserEnabled(channelId: int): (r: bool)
      reads this
      ensures r == ParserEnabled(parsers, channelId)
    {
      ParserEnabled(parsers, channelId)
    }

    /** parser_enable: flag the parser enabled and make sure its parse task is scheduled. */
    method ParserEnable(id: int) returns (r: Result<string>)
      modifies this
      ensures (State(), r) == ParserEnableSpec(old(State()), id)
    {
      var k := ParserIndex(parsers, id);
      if k.None? {
        return Err(NotFound);
      }
      var record := parsers[k.value];
      if !record.enabled {
        parsers := parsers[k.value := record.(enabled := true)];
      }
      var args := ParseArgs(record.channelId, record.functionName);
      if HasActive(tasks, Parse, args) {
        return Ok("Parser already enabled");
      }
      tasks := tasks + [NewTask(Parse, args)];
      return Ok("Parser enabled");
    }

    /** parser_disable: flag the parser disabled and stop its active parse tasks. */
    method ParserDisable(id: int) returns (r: Result<string>)
      modifies this
      ensures (State(), r) == ParserDisableSpec(old(State()), id)
    {
      var k := ParserIndex(parsers, id);
      if k.None? {
        return Err(NotFound);
      }
      var record := parsers[k.value];
      if record.enabled {
        parsers := parsers[k.value := record.(enabled := false)];
      }
      var args := ParseArgs(record.channelId, record.functionName);
      if HasActive(tasks, Parse, args) {
        tasks := StopAll(tasks, Parse, args);
        return Ok("Parser disabled");
      }
      return Ok("Parser already disabled");
    }

    /** channel_enable. */
    method ChannelEnable(tablename: string, channelId: int) returns (r: Result<string>)
      modifies this
      ensures (State(), r) == ChannelEnableSpec(old(State()), tablename, channelId)
    {
      var k := ChannelIndex(channels, tablename, channelId);
      if k.None? {
        return Err(NotFound);
      }
      ghost var db0 := State();
      var record := channels[k.value];
      if !record.enabled {
        channels := channels[k.value := record.(enabled := true)];
      }
      var ids := ParserIds(parsers, channelId, false);
      ghost var db1 := State();
      assert db1 == SetChannelFlag(db0, k.value, true);
      var i := 0;
      while i < |ids|
        invariant 0 <= i <= |ids|
        invariant EnableParsers(State(), ids[i..]) == EnableParsers(db1, ids)
      {
        EnableParsersStep(State(), ids, i);
        var _ := ParserEnable(ids[i]);
        i := i + 1;
      }
      assert ids[|ids|..] == [];
      ghost var db2 := State();
      assert db2 == EnableParsers(db1, ids);
      var args := PollArgs(tablename, channelId);
      if HasActive(tasks, Poll, args) {
        return Ok("Channel already enabled");
      }
      tasks := tasks + [NewTask(Poll, args)];
      return Ok("Channel enabled");
    }

    /** channel_disable. */
    method ChannelDisable(tablename: string, channelId: int) returns (r: Result<string>)
      modifies this
      ensures (State(), r) == ChannelDisableSpec(old(State()), tablename, channelId)
    {
      var k := ChannelIndex(channels, tablename, channelId);
      if k.None? {
        return Err(NotFound);
      }
      ghost var db0 := State();
      var record := channels[k.value];
      if record.enabled {
        channels := channels[k.value := record.(enabled := false)];
      }
      var ids := ParserIds(parsers, channelId, true);
      ghost var db1 := State();
      assert db1 == SetChannelFlag(db0, k.value, false);
      var i := 0;
      while i < |ids|
        invariant 0 <= i <= |ids|
        invariant DisableParsers(State(), ids[i..]) == DisableParsers(db1, ids)
      {
        DisableParsersStep(State(), ids, i);
        var _ := ParserDisable(ids[i]);
        i := i + 1;
      }
      assert ids[|ids|..] == [];
      ghost var db2 := State();
      assert db2 == DisableParsers(db1, ids);
      var args := PollArgs(tablename, channelId);
      if HasActive(tasks, Poll, args) {
        tasks := StopAll(tasks, Poll, args);
        return Ok("Channel disabled");
      }
      return Ok("Channel already disabled");
    }

    /** channel_onaccept. */
    method ChannelOnaccept(form: ChannelForm)
      modifies this
      ensures State() == ChannelOnacceptSpec(old(State()), form)
    {
      var action := Reconcile(form.record, form.enabled);
      if action == CallDisable {
        var _ := ChannelDisable(form.tablename, form.channelId);
      } else if action == CallEnable {
        var _ := ChannelEnable(form.tablename, form.channelId);
      }
    }

    /**
     * msg_facebook_channel_onaccept and twitter_channel_onaccept (the same
     * code for the two tables).
     */
    method LoginOnaccept(form: ChannelForm)
      requires ValidDb(State()) && FormSaved(channels, form)
      modifies this
      ensures form.login ==> forall j :: 0 <= j < |channels| && channels[j].tablename == form.tablename && channels[j].id != form.id ==>
                               !channels[j].login
      ensures var db1 := if form.login then old(State()).(channels := ClearLogin(old(channels), form.tablename, form.id)) else old(State());
              State() == ChannelOnacceptSpec(db1, form)
    {
      LoginExclusive(State(), form);
      if form.login {
        channels := ClearLogin(channels, form.tablename, form.id);
      }
      ChannelOnaccept(form);
    }

    /** msg_gcm_channel_onaccept. */
    method GcmOnaccept(form: ChannelForm)
      requires form.tablename == GcmTable
      requires ValidDb(State()) && FormSaved(channels, form)
      modifies this
      ensures form.enabled ==> forall j :: 0 <= j < |channels| && channels[j].tablename == GcmTable && channels[j].id != form.id ==>
                                 !channels[j].enabled
      ensures var db1 := if form.enabled then old(State()).(channels := ClearEnabled(old(channels), GcmTable, form.id)) else old(State());
              State() == ChannelOnacceptSpec(db1, form)
    {
      GcmExclusive(State(), form);
      if form.enabled {
        channels := ClearEnabled(channels, GcmTable, form.id);
      }
      ChannelOnaccept(form);
    }

    /** msg_parser_onaccept. */
    method ParserOnaccept(form: ParserForm)
      modifies this
      ensures match Reconcile(form.record, form.enabled)
              case CallEnable => State() == ParserEnableSpec(old(State()), form.id).0
              case CallDisable => State() == ParserDisableSpec(old(State()), form.id).0
              case NoAction => State() == old(State())
    {
      var action := Reconcile(form.record, form.enabled);
      if action == CallDisable {
        var _ := ParserDisable(form.id);
      } else if action == CallEnable {
        var _ := ParserEnable(form.id);
      }
    }
  }
}
