/** Entering a workflow's webhooks in the webhook table, and taking them out again when
    one of them fails. The table's key is method and path, whoever it belongs to. */
module WebhookRegistration {
  import opened Wrappers

  type WorkflowId = string

  datatype Key = Key(httpMethod: string, webhookPath: string)

  datatype Row = Row(workflowId: WorkflowId, node: string, webhookId: Option<string>, pathLength: Option<nat>)

  type Rows = map<Key, Row>

  /** A webhook of the workflow, with the webhook id of its node. */
  datatype Webhook = Webhook(httpMethod: string, path: string, node: string, nodeWebhookId: Option<string>)

  datatype Error = QueryFailed | OtherError

  /** How entering a webhook goes: the upsert fails, or the set-up at the third party
      after it, or neither. */
  datatype Outcome = Succeeds | StoreFails(error: Error) | CreateFails(error: Error)

  datatype Try = Try(webhook: Webhook, outcome: Outcome)

  datatype Activation = Init | LeadershipChange | Activate | Update

  datatype Result = Added(webhooks: bool) | PathTaken(node: string) | Rethrown

  // ---------- Paths and rows ----------

  function WithoutSlashes(path: string): string {
    var tail := if path != "" && path[0] == '/' then path[1..] else path;
    if tail != "" && tail[|tail| - 1] == '/' then tail[..|tail| - 1] else tail
  }

  function Segments(path: string): nat {
    if path == "" then 1 else (if path[0] == '/' then 1 else 0) + Segments(path[1..])
  }

  predicate IsDynamic(path: string) {
    (path != "" && path[0] == ':') || exists i :: 0 <= i < |path| - 1 && path[i] == '/' && path[i + 1] == ':'
  }

  function KeyOf(w: Webhook): Key {
    Key(w.httpMethod, WithoutSlashes(w.path))
  }

  function RowOf(id: WorkflowId, w: Webhook): Row {
    if IsDynamic(w.path) && w.nodeWebhookId.Some? && w.nodeWebhookId.value != "" then
      Row(id, w.node, w.nodeWebhookId, Some(Segments(WithoutSlashes(w.path))))
    else Row(id, w.node, None, None)
  }

  // ---------- What the loop does to the table ----------

  function Entering(rows: Rows, id: WorkflowId, t: Try): Rows {
    if t.outcome.StoreFails? then rows else rows[KeyOf(t.webhook) := RowOf(id, t.webhook)]
  }

  function Stored(rows: Rows, id: WorkflowId, tries: seq<Try>): Rows {
    if tries == [] then rows else Entering(Stored(rows, id, tries[..|tries| - 1]), id, tries[|tries| - 1])
  }

  lemma StoredOneMore(rows: Rows, id: WorkflowId, tries: seq<Try>, i: nat)
    requires i < |tries|
    ensures Stored(rows, id, tries[..i + 1]) == Entering(Stored(rows, id, tries[..i]), id, tries[i])
  {
    assert tries[..i + 1][..i] == tries[..i];
  }

  /** Restarted instances find their rows from before, so failing queries do not count. */
  predicate Tolerated(activation: Activation, o: Outcome) {
    o.Succeeds? || ((activation == Init || activation == LeadershipChange) && o.error == QueryFailed)
  }

  /** The number of webhooks gone through before one fails for good. */
  function Reached(activation: Activation, tries: seq<Try>): (n: nat)
    ensures n <= |tries|
    ensures forall i :: 0 <= i < n ==> Tolerated(activation, tries[i].outcome)
    ensures n < |tries| ==> !Tolerated(activation, tries[n].outcome)
  {
    if tries == [] || !Tolerated(activation, tries[0].outcome) then 0
    else
      var n := 1 + Reached(activation, tries[1..]);
      assert forall i :: 1 <= i < n ==> tries[i] == tries[1..][i - 1];
      n
  }

  function Cleared(rows: Rows, id: WorkflowId): Rows {
    map k | k in rows && rows[k].workflowId != id :: rows[k]
  }

  /** The table afterwards; `clears` tells whether clearing, if it comes to that, succeeds. */
  function RowsAfter(rows: Rows, id: WorkflowId, activation: Activation, tries: seq<Try>, clears: bool): Rows {
    var n := Reached(activation, tries);
    if n == |tries| then Stored(rows, id, tries)
    else
      var stored := Stored(rows, id, tries[..n + 1]);
      if clears then Cleared(stored, id) else stored
  }

  function ResultOf(activation: Activation, tries: seq<Try>): Result {
    var n := Reached(activation, tries);
    if tries == [] then Added(false)
    else if n == |tries| then Added(true)
    else if tries[n].outcome.error == QueryFailed then PathTaken(tries[n].webhook.node)
    else Rethrown
  }

  // ---------- The methods ----------

  class WebhookService {
    var rows: Rows

    constructor ()
      ensures rows == map[]
    {
      rows := map[];
    }

    /** An upsert by method and path. */
    method StoreWebhook(key: Key, row: Row, fails: bool)
      modifies this
      ensures rows == if fails then old(rows) else old(rows)[key := row]
    {
      if !fails {
        rows := rows[key := row];
      }
    }

    method DeleteWorkflowWebhooks(id: WorkflowId)
      modifies this
      ensures rows == Cleared(old(rows), id)
    {
      rows := map k | k in rows && rows[k].workflowId != id :: rows[k];
    }
  }

  class ActiveWorkflowManager {
    const webhookService: WebhookService

    constructor (webhookService: WebhookService)
      ensures this.webhookService == webhookService
    {
      this.webhookService := webhookService;
    }

    /** Anything before the deletion may fail, and then nothing is deleted. */
    method ClearWebhooks(id: WorkflowId, succeeds: bool)
      modifies webhookService
      ensures webhookService.rows
          == if succeeds then Cleared(old(webhookService.rows), id) else old(webhookService.rows)
    {
      if succeeds {
        webhookService.DeleteWorkflowWebhooks(id);
      }
    }

    /** The row to be stored, and the method and path to store it under. */
    method CreateWebhook(id: WorkflowId, webhook: Webhook) returns (key: Key, row: Row)
      ensures key == KeyOf(webhook) && row == RowOf(id, webhook)
    {
      var webhookPath := webhook.path;
      if webhookPath != "" && webhookPath[0] == '/' {
        webhookPath := webhookPath[1..];
      }
      if webhookPath != "" && webhookPath[|webhookPath| - 1] == '/' {
        webhookPath := webhookPath[..|webhookPath| - 1];
      }
      key, row := Key(webhook.httpMethod, webhookPath), Row(id, webhook.node, None, None);
      if IsDynamic(webhook.path) && webhook.nodeWebhookId.Some? && webhook.nodeWebhookId.value != "" {
        row := row.(webhookId := webhook.nodeWebhookId, pathLength := Some(Segments(webhookPath)));
      }
    }

    method EnterWebhook(id: WorkflowId, t: Try)
      modifies webhookService
      ensures webhookService.rows == Entering(old(webhookService.rows), id, t)
    {
      var key, row := CreateWebhook(id, t.webhook);
      webhookService.StoreWebhook(key, row, t.outcome.StoreFails?);
    }

    method AddWebhooks(id: WorkflowId, activation: Activation, tries: seq<Try>, clears: bool) returns (r: Result)
      modifies webhookService
      ensures webhookService.rows == RowsAfter(old(webhookService.rows), id, activation, tries, clears)
      ensures r == ResultOf(activation, tries)
    {
      if tries == [] { return Added(false); }
      for i := 0 to |tries|
        invariant i <= Reached(activation, tries)
        invariant webhookService.rows == Stored(old(webhookService.rows), id, tries[..i])
      {
        var webhook, outcome := tries[i].webhook, tries[i].outcome;
        EnterWebhook(id, tries[i]);
        StoredOneMore(old(webhookService.rows), id, tries, i);
        if !outcome.Succeeds? {
          if (activation == Init || activation == LeadershipChange) && outcome.error == QueryFailed {
            continue;
          }
          ClearWebhooks(id, clears);
          return if outcome.error == QueryFailed then PathTaken(webhook.node) else Rethrown;
        }
      }
      assert tries[..|tries|] == tries;
      return Added(true);
    }
  }

  // ---------- What is stored ----------

  /** Entered: the upsert went through, whatever happened after it. */
  ghost predicate Enters(t: Try, k: Key) {
    !t.outcome.StoreFails? && KeyOf(t.webhook) == k
  }

  ghost predicate Entered(tries: seq<Try>, k: Key) {
    exists i :: 0 <= i < |tries| && Enters(tries[i], k)
  }

  /** The one among the webhooks of a key that entered last. */
  ghost predicate EntersLast(tries: seq<Try>, i: nat, k: Key) {
    i < |tries| && Enters(tries[i], k) && forall j :: i < j < |tries| ==> !Enters(tries[j], k)
  }

  lemma {:induction false} StoredAt(rows: Rows, id: WorkflowId, tries: seq<Try>, k: Key)
    ensures k in Stored(rows, id, tries) <==> k in rows || Entered(tries, k)
    ensures !Entered(tries, k) && k in rows ==> Stored(rows, id, tries)[k] == rows[k]
    ensures Entered(tries, k) ==> Stored(rows, id, tries)[k].workflowId == id
  {
    if tries != [] {
      var init, last := tries[..|tries| - 1], tries[|tries| - 1];
      StoredAt(rows, id, init, k);
      assert forall i :: 0 <= i < |init| ==> tries[i] == init[i];
      assert Entered(tries, k) <==> Entered(init, k) || Enters(last, k);
    }
  }

  lemma {:induction false} LastOneCounts(rows: Rows, id: WorkflowId, tries: seq<Try>, k: Key, i: nat)
    requires EntersLast(tries, i, k)
    ensures k in Stored(rows, id, tries) && Stored(rows, id, tries)[k] == RowOf(id, tries[i].webhook)
  {
    var init, last := tries[..|tries| - 1], tries[|tries| - 1];
    if i < |init| {
      assert !Enters(last, k);
      assert forall j :: 0 <= j < |init| ==> init[j] == tries[j];
      LastOneCounts(rows, id, init, k, i);
    }
  }

  lemma {:induction false} SomeoneEntersLast(tries: seq<Try>, k: Key)
    requires Entered(tries, k)
    ensures exists i: nat :: EntersLast(tries, i, k)
  {
    var init, last := tries[..|tries| - 1], tries[|tries| - 1];
    assert forall j :: 0 <= j < |init| ==> init[j] == tries[j];
    if Enters(last, k) {
      assert EntersLast(tries, |init|, k);
    } else {
      assert Entered(init, k);
      SomeoneEntersLast(init, k);
      var i: nat :| EntersLast(init, i, k);
      assert EntersLast(tries, i, k);
    }
  }

  // ---------- Keys, rows and results in terms of the webhooks ----------

  /** `core` is the path without one slash at its start and one at its end, where it has
      them. */
  ghost predicate Strips(path: string, core: string) {
    exists lead, trail :: StripsBy(path, core, lead, trail)
  }

  predicate StripsBy(path: string, core: string, lead: string, trail: string) {
    && lead in {"", "/"} && trail in {"", "/"} && path == lead + core + trail
    && (lead == "" ==> path == "" || path[0] != '/')
    && (trail == "" ==> core == "" || core[|core| - 1] != '/')
  }

  lemma StripsExactly(path: string, core: string)
    ensures WithoutSlashes(path) == core <==> Strips(path, core)
  {
    if WithoutSlashes(path) == core {
      StripsToCore(path);
    }
    if Strips(path, core) {
      var lead, trail :| StripsBy(path, core, lead, trail);
      StrippedIsCore(path, core, lead, trail);
    }
  }

  lemma StripsToCore(path: string)
    ensures Strips(path, WithoutSlashes(path))
  {
    var lead := if path != "" && path[0] == '/' then "/" else "";
    var tail := path[|lead|..];
    var trail := if tail != "" && tail[|tail| - 1] == '/' then "/" else "";
    assert path == lead + tail && tail == tail[..|tail| - |trail|] + trail;
    assert path == lead + tail[..|tail| - |trail|] + trail;
    assert WithoutSlashes(path) == tail[..|tail| - |trail|];
    OnceStripped(path, lead, trail, tail[..|tail| - |trail|]);
  }

  lemma StrippedIsCore(path: string, core: string, lead: string, trail: string)
    requires StripsBy(path, core, lead, trail)
    ensures WithoutSlashes(path) == core
  {
    assert path == lead + (core + trail);
    assert path[|lead|..] == core + trail;
    assert (core + trail)[..|core|] == core;
  }

  lemma OnceStripped(path: string, lead: string, trail: string, core: string)
    requires lead == (if path != "" && path[0] == '/' then "/" else "") && path == lead + core + trail
    requires trail == if core + trail != "" && (core + trail)[|core + trail| - 1] == '/' then "/" else ""
    ensures Strips(path, core)
  {
    assert trail == "" ==> core + trail == core;
    assert StripsBy(path, core, lead, trail);
  }

  /** Two webhooks share a row if and only if they have the same method and paths that
      differ in a slash at either end at most. */
  lemma SameKeyExactlyWhen(a: Webhook, b: Webhook)
    ensures KeyOf(a).httpMethod == a.httpMethod && Strips(a.path, KeyOf(a).webhookPath)
    ensures KeyOf(a) == KeyOf(b) <==>
              a.httpMethod == b.httpMethod && exists core :: Strips(a.path, core) && Strips(b.path, core)
  {
    StripsExactly(a.path, WithoutSlashes(a.path));
    StripsExactly(b.path, WithoutSlashes(b.path));
    forall core | Strips(a.path, core) && Strips(b.path, core)
      ensures WithoutSlashes(a.path) == WithoutSlashes(b.path)
    {
      StripsExactly(a.path, core);
      StripsExactly(b.path, core);
    }
  }

  lemma {:induction false} OneSegmentMoreThanSlashes(path: string)
    ensures Segments(path) == multiset(path)['/'] + 1
  {
    if path != "" {
      assert path == [path[0]] + path[1..];
      OneSegmentMoreThanSlashes(path[1..]);
    }
  }

  ghost predicate HasParameter(path: string) {
    ":" <= path || exists before, after :: path == before + "/:" + after
  }

  /** The row names workflow and node. If the path has a segment that begins with a colon, and
      the node a webhook id, it holds that and the number of segments; otherwise neither. */
  ghost predicate IsRowOf(row: Row, id: WorkflowId, w: Webhook, core: string) {
    && row.workflowId == id && row.node == w.node
    && if HasParameter(w.path) && w.nodeWebhookId !in {None, Some("")}
       then row.webhookId == w.nodeWebhookId && row.pathLength == Some(multiset(core)['/'] + 1)
       else row.webhookId == None && row.pathLength == None
  }

  lemma DynamicExactlyWhen(path: string)
    ensures IsDynamic(path) <==> HasParameter(path)
  {
    if i :| 0 <= i < |path| - 1 && path[i] == '/' && path[i + 1] == ':' {
      assert path == path[..i] + "/:" + path[i + 2..];
    }
    if before, after :| path == before + "/:" + after {
      assert path[|before|] == '/' && path[|before| + 1] == ':';
    }
  }

  lemma RowOfIs(id: WorkflowId, w: Webhook, core: string)
    requires Strips(w.path, core)
    ensures IsRowOf(RowOf(id, w), id, w, core)
  {
    StripsExactly(w.path, core);
    OneSegmentMoreThanSlashes(core);
    DynamicExactlyWhen(w.path);
  }

  /** It got by: it was entered and set up, or this is an init or a change of leader, and
      its query failed. */
  predicate GotBy(activation: Activation, o: Outcome) {
    || o == Succeeds
    || (activation in {Init, LeadershipChange} && o in {StoreFails(QueryFailed), CreateFails(QueryFailed)})
  }

  /** The first webhook that does not get by ends it: as a path taken by its node if its
      query failed, as its own error otherwise. */
  lemma ResultMeans(activation: Activation, tries: seq<Try>)
    ensures ResultOf(activation, tries) == Added(false) <==> tries == []
    ensures ResultOf(activation, tries) == Added(true) <==>
              tries != [] && forall i :: 0 <= i < |tries| ==> GotBy(activation, tries[i].outcome)
    ensures forall n :: 0 <= n < |tries| && !GotBy(activation, tries[n].outcome)
                        && (forall i :: 0 <= i < n ==> GotBy(activation, tries[i].outcome)) ==>
              ResultOf(activation, tries) ==
              if tries[n].outcome.error == QueryFailed then PathTaken(tries[n].webhook.node) else Rethrown
  {
    var n := Reached(activation, tries);
    assert forall o :: Tolerated(activation, o) <==> GotBy(activation, o);
    assert n < |tries| ==> !GotBy(activation, tries[n].outcome);
  }

  // ---------- All ----------

  /** Of the workflow's webhooks with that method and path, slashes aside, the last. */
  ghost predicate IsLastOf(tries: seq<Try>, j: int, httpMethod: string, core: string) {
    && 0 <= j < |tries| && tries[j].webhook.httpMethod == httpMethod && Strips(tries[j].webhook.path, core)
    && forall l :: j < l < |tries| ==> tries[l].webhook.httpMethod != httpMethod || !Strips(tries[l].webhook.path, core)
  }

  /** Returning true means every webhook has its row, under its method and its path: the
      workflow's, as entered by the last of its webhooks with the same method and path. */
  lemma AllRegistered(rows: Rows, id: WorkflowId, activation: Activation, tries: seq<Try>, clears: bool,
                      i: nat, core: string)
    requires activation == Activate || activation == Update
    requires ResultOf(activation, tries) == Added(true) && i < |tries| && Strips(tries[i].webhook.path, core)
    ensures var after := RowsAfter(rows, id, activation, tries, clears);
            var httpMethod := tries[i].webhook.httpMethod;
            && Key(httpMethod, core) in after
            && exists j :: IsLastOf(tries, j, httpMethod, core)
                           && IsRowOf(after[Key(httpMethod, core)], id, tries[j].webhook, core)
  {
    var k := Key(tries[i].webhook.httpMethod, core);
    AllEntered(activation, tries);
    EntersExactly(tries[i], k);
    SomeoneEntersLast(tries, k);
    var j: nat :| EntersLast(tries, j, k);
    LastOneCounts(rows, id, tries, k, j);
    EntersExactly(tries[j], k);
    RowOfIs(id, tries[j].webhook, core);
    forall l | j < l < |tries|
      ensures tries[l].webhook.httpMethod != k.httpMethod || !Strips(tries[l].webhook.path, core)
    {
      EntersExactly(tries[l], k);
    }
    assert IsLastOf(tries, j, k.httpMethod, core);
  }

  lemma AllEntered(activation: Activation, tries: seq<Try>)
    requires activation == Activate || activation == Update
    requires ResultOf(activation, tries) == Added(true)
    ensures Reached(activation, tries) == |tries| && forall l :: 0 <= l < |tries| ==> tries[l].outcome.Succeeds?
  {
    assert forall l :: 0 <= l < |tries| ==> Tolerated(activation, tries[l].outcome);
  }

  lemma EntersExactly(t: Try, k: Key)
    requires t.outcome.Succeeds?
    ensures Enters(t, k) <==> t.webhook.httpMethod == k.httpMethod && Strips(t.webhook.path, k.webhookPath)
  {
    StripsExactly(t.webhook.path, k.webhookPath);
  }

  /** On init and change of leader true is returned although queries failed: then the
      workflow has the row exactly if some webhook of that key was entered, or the row
      was the workflow's already. */
  lemma RegisteredOnInit(rows: Rows, id: WorkflowId, activation: Activation, tries: seq<Try>, clears: bool, k: Key)
    requires ResultOf(activation, tries) == Added(true)
    ensures var after := RowsAfter(rows, id, activation, tries, clears);
            k in after && after[k].workflowId == id <==> Entered(tries, k) || (k in rows && rows[k].workflowId == id)
  {
    StoredAt(rows, id, tries, k);
  }

  // ---------- Or nothing ----------

  ghost predicate Fails(activation: Activation, tries: seq<Try>) {
    !ResultOf(activation, tries).Added?
  }

  /** The webhooks gone through when one fails, that one included. */
  function GoneThrough(activation: Activation, tries: seq<Try>): seq<Try>
    requires Fails(activation, tries)
  {
    tries[..Reached(activation, tries) + 1]
  }

  /** After a failure that was cleared up, the table is what it was, without the
      workflow's rows, old and new, and without every other workflow's row that one of
      the webhooks gone through had been entered over. */
  lemma RolledBack(rows: Rows, id: WorkflowId, activation: Activation, tries: seq<Try>)
    requires Fails(activation, tries)
    ensures RowsAfter(rows, id, activation, tries, true)
         == map k | k in rows && rows[k].workflowId != id && !Entered(GoneThrough(activation, tries), k) :: rows[k]
  {
    forall k: Key {
      StoredAt(rows, id, GoneThrough(activation, tries), k);
    }
  }

  /** If clearing up fails too, what went through before the failure stays. */
  lemma NotRolledBack(rows: Rows, id: WorkflowId, activation: Activation, tries: seq<Try>, k: Key)
    requires Fails(activation, tries)
    ensures var after := RowsAfter(rows, id, activation, tries, false);
            && (Entered(GoneThrough(activation, tries), k) ==> k in after && after[k].workflowId == id)
            && (!Entered(GoneThrough(activation, tries), k) ==>
                  (k in after <==> k in rows) && (k in rows ==> after[k] == rows[k]))
  {
    StoredAt(rows, id, GoneThrough(activation, tries), k);
  }

  lemma NoRowLeft(rows: Rows, id: WorkflowId, activation: Activation, tries: seq<Try>, k: Key)
    requires Fails(activation, tries) && k in RowsAfter(rows, id, activation, tries, true)
    ensures RowsAfter(rows, id, activation, tries, true)[k].workflowId != id
  {
    RolledBack(rows, id, activation, tries);
  }

  /** Of the workflow's webhooks, one takes the row of another workflow. */
  ghost predicate Collides(rows: Rows, id: WorkflowId, tries: seq<Try>) {
    exists k :: k in rows && rows[k].workflowId != id && Entered(tries, k)
  }

  /** So rolling back leaves the other workflows' rows alone exactly when no webhook gone
      through had the method and path of one of them. */
  lemma OthersUnchangedUnlessColliding(rows: Rows, id: WorkflowId, activation: Activation, tries: seq<Try>)
    requires Fails(activation, tries)
    ensures RowsAfter(rows, id, activation, tries, true) == Cleared(rows, id)
       <==> !Collides(rows, id, GoneThrough(activation, tries))
  {
    RolledBack(rows, id, activation, tries);
    var after := RowsAfter(rows, id, activation, tries, true);
    if Collides(rows, id, GoneThrough(activation, tries)) {
      var k :| k in rows && rows[k].workflowId != id && Entered(GoneThrough(activation, tries), k);
      assert k in Cleared(rows, id) && k !in after;
    }
  }

  /** Another workflow's path, and a set-up that fails: the other's row is gone. */
  lemma RollbackTakesAnothersRow()
    ensures exists rows: Rows, tries: seq<Try> ::
      && Fails(Activate, tries)
      && (exists k ::
            k in rows && rows[k].workflowId == "theirs" && k !in RowsAfter(rows, "mine", Activate, tries, true))
  {
    var webhook := Webhook("GET", "hook", "node", None);
    var tries := [Try(webhook, CreateFails(OtherError))];
    var k := KeyOf(webhook);
    var rows := map[k := Row("theirs", "node", None, None)];
    RolledBack(rows, "mine", Activate, tries);
    assert Enters(GoneThrough(Activate, tries)[0], k);
    assert k in rows && rows[k].workflowId == "theirs" && k !in RowsAfter(rows, "mine", Activate, tries, true);
  }

  // ---------- Paths ----------

  /** One slash at either end of a path makes no difference to its row. */
  lemma SlashesDoNotMatter(path: string)
    requires path != "" && path[0] != '/' && path[|path| - 1] != '/'
    ensures WithoutSlashes(path) == path
    ensures WithoutSlashes("/" + path) == path
    ensures WithoutSlashes(path + "/") == path
    ensures WithoutSlashes("/" + path + "/") == path
  {
    assert ("/" + path)[1..] == path;
    assert (path + "/")[..|path|] == path;
    assert ("/" + path + "/")[1..] == path + "/";
  }
}
