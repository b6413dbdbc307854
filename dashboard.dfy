/**
 * Stored dashboard configurations: saving an active configuration
 * deactivates the other active ones for the same controller and function.
 */
module Dashboard {
  import opened Wrappers

  /** A row of s3_dashboard (`fn` is the `function` column). */
  datatype Config = Config(id: int, controller: string, fn: string, active: bool, deleted: bool)

  /** Another live, active configuration for the same page as `row`. */
  predicate Rival(c: Config, row: Config) {
    c.controller == row.controller && c.fn == row.fn && c.id != row.id && c.active && !c.deleted
  }

  /** `db(query).update(active=False)` over the rivals of `row`. */
  function DeactivateRivals(configs: seq<Config>, row: Config): (r: seq<Config>)
    ensures |r| == |configs|
    ensures forall j :: 0 <= j < |r| ==> !Rival(r[j], row)
    ensures forall j :: 0 <= j < |r| ==> r[j].(active := configs[j].active) == configs[j]
    ensures forall j :: 0 <= j < |r| && !Rival(configs[j], row) ==> r[j] == configs[j]
  {
    seq(|configs|, j requires 0 <= j < |configs| =>
      if Rival(configs[j], row) then configs[j].(active := false) else configs[j])
  }

  /** The table after dashboard_onaccept for the form's record id (None when the form has none). */
  function OnacceptSpec(configs: seq<Config>, recordId: Option<int>): seq<Config> {
    match FirstIndex(configs, (c: Config) => Some(c.id) == recordId)
    case None => configs
    case Some(k) => if configs[k].active then DeactivateRivals(configs, configs[k]) else configs
  }

  /**
   * Without a record, or with an inactive one, nothing changes. With an
   * active one, exactly its rivals are switched off: the saved row, other
   * pages and deleted rows keep their values, and afterwards the saved
   * configuration is the only active live one for its page.
   */
  lemma OnacceptEffect(configs: seq<Config>, recordId: Option<int>)
    ensures var r := OnacceptSpec(configs, recordId);
            var k := FirstIndex(configs, (c: Config) => Some(c.id) == recordId);
            && |r| == |configs|
            && (k.None? || !configs[k.value].active ==> r == configs)
            && (k.Some? && configs[k.value].active ==>
                  var row := configs[k.value];
                  && r[k.value] == row
                  && (forall j :: 0 <= j < |r| ==> r[j] == configs[j].(active := r[j].active))
                  && (forall j :: 0 <= j < |r| && !Rival(configs[j], row) ==> r[j] == configs[j])
                  && (forall j :: 0 <= j < |r| && r[j].controller == row.controller && r[j].fn == row.fn && r[j].active && !r[j].deleted
                        ==> r[j].id == row.id))
  {
  }

  /** Accepting the same form twice changes nothing the second time. */
  lemma OnacceptIdempotent(configs: seq<Config>, recordId: Option<int>)
    ensures OnacceptSpec(OnacceptSpec(configs, recordId), recordId) == OnacceptSpec(configs, recordId)
  {
    var p := (c: Config) => Some(c.id) == recordId;
    var k := FirstIndex(configs, p);
    var r := OnacceptSpec(configs, recordId);
    if k.Some? && configs[k.value].active {
      assert forall j :: 0 <= j < |r| ==> (p(r[j]) <==> p(configs[j]));
      assert FirstIndex(r, p) == k;
      assert DeactivateRivals(r, r[k.value]) == r;
    }
  }

  /** The s3_dashboard table, updated in place. */
  class DashboardTable {
    var configs: seq<Config>

    constructor (configs: seq<Config>)
      ensures this.configs == configs
    {
      this.configs := configs;
    }

    /** dashboard_onaccept. */
    method Onaccept(recordId: Option<int>)
      modifies this
      ensures configs == OnacceptSpec(old(configs), recordId)
    {
      var k := FirstIndex(configs, (c: Config) => Some(c.id) == recordId);
      if k.None? {
        return;
      }
      var row := configs[k.value];
      if row.active {
        configs := DeactivateRivals(configs, row);
      }
    }
  }
}
