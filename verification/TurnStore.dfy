/**
 * The two tutor turn stores and the record format they share
 * (backend/app/modules/tutor/turn_state_store.py).
 */
module TurnStore {
  import opened Options

  // -------------------------------------------------------------------- JSON values

  datatype Json =
    | JNull
    | JBool(flag: bool)
    | JInt(number: int)
    | JReal(amount: real)
    | JStr(text: string)
    | JArr(items: seq<Json>)
    | JObj(fields: map<string, Json>)

  predicate Truthy(j: Json) {
    match j
    case JNull => false
    case JBool(b) => b
    case JInt(n) => n != 0
    case JReal(x) => x != 0.0
    case JStr(s) => s != ""
    case JArr(items) => items != []
    case JObj(fields) => fields != map[]
  }

  /** What Python makes of values that are not what `to_json` wrote: `str(...)` of a value that is
      not a string, `int(...)` of a string, `list(...)` of a string or an object. */
  datatype Python = Python(toStr: Json -> string, toInt: string -> Option<int>, toList: Json -> Option<seq<Json>>)

  // ------------------------------------------------------------------------ records

  /** Fields the reader hands on without a conversion are JSON values, `JNull` for `None`. */
  datatype PausedTurn = PausedTurn(
    sessionId: string, capability: string, cefrLevel: Json, persona: Json, language: string, enabledTools: Json,
    systemPrompt: string, agentMessages: seq<Json>, pauseQuestion: string, pendingToolCall: Json, askUser: Json)

  datatype TurnRecord = TurnRecord(
    turnId: string, sessionId: string, userId: string, status: string, seqNo: int, paused: Option<PausedTurn>,
    userMessage: string, conversationHistory: seq<Json>, capability: string, language: string,
    cefrLevel: Json, persona: Json)
  {
    predicate Running() {
      status == "running"
    }
  }

  type Document = map<string, Json>

  function PausedToDict(p: PausedTurn): Document {
    map[
      "session_id" := JStr(p.sessionId), "capability" := JStr(p.capability), "cefr_level" := p.cefrLevel,
      "persona" := p.persona, "language" := JStr(p.language), "enabled_tools" := p.enabledTools,
      "system_prompt" := JStr(p.systemPrompt), "agent_messages" := JArr(p.agentMessages),
      "pause_question" := JStr(p.pauseQuestion), "pending_tool_call" := p.pendingToolCall, "ask_user" := p.askUser]
  }

  function PausedJson(r: TurnRecord): Json {
    if r.paused.Some? then JObj(PausedToDict(r.paused.value)) else JNull
  }

  function ToJson(r: TurnRecord): Document {
    map[
      "turn_id" := JStr(r.turnId), "session_id" := JStr(r.sessionId), "user_id" := JStr(r.userId),
      "status" := JStr(r.status), "seq" := JInt(r.seqNo),
      "paused" := PausedJson(r),
      "user_message" := JStr(r.userMessage), "conversation_history" := JArr(r.conversationHistory),
      "capability" := JStr(r.capability), "language" := JStr(r.language),
      "cefr_level" := r.cefrLevel, "persona" := r.persona]
  }

  function Str(py: Python, j: Json): string {
    if j.JStr? then j.text else py.toStr(j)
  }

  /** `data.get(key)`. */
  function Field(d: Document, key: string): Json {
    if key in d then d[key] else JNull
  }

  /** `str(data.get(key) or fallback)`. */
  function StrOr(py: Python, d: Document, key: string, fallback: string): string {
    if Truthy(Field(d, key)) then Str(py, Field(d, key)) else fallback
  }

  /** `list(data.get(key) or [])`; `None` for an exception. */
  function ListOr(py: Python, d: Document, key: string): Option<seq<Json>> {
    var j := Field(d, key);
    if !Truthy(j) then Some([]) else if j.JArr? then Some(j.items) else py.toList(j)
  }

  /** `int(data.get(key) or 0)`. */
  function IntOr(py: Python, d: Document, key: string): Option<int> {
    match Field(d, key)
    case JInt(n) => Some(n)
    case JReal(x) => Some(if x >= 0.0 then x.Floor else -((-x).Floor))
    case JBool(b) => Some(if b then 1 else 0)
    case JStr(s) => if s == "" then Some(0) else py.toInt(s)
    case JNull => Some(0)
    case JArr(items) => if items == [] then Some(0) else None
    case JObj(fields) => if fields == map[] then Some(0) else None
  }

  function PausedFromDict(py: Python, d: Document): Option<PausedTurn> {
    var messages := ListOr(py, d, "agent_messages");
    if "session_id" !in d || messages.None? then None
    else Some(PausedTurn(
      Str(py, d["session_id"]), StrOr(py, d, "capability", "chat"), Field(d, "cefr_level"), Field(d, "persona"),
      StrOr(py, d, "language", "en"), Field(d, "enabled_tools"), StrOr(py, d, "system_prompt", ""),
      messages.value, StrOr(py, d, "pause_question", ""), Field(d, "pending_tool_call"), Field(d, "ask_user")))
  }

  /** `None` stands for the exceptions that `get_turn` answers with "corrupt, no such turn". */
  function FromJson(py: Python, d: Document): Option<TurnRecord> {
    var raw := Field(d, "paused");
    var paused := if raw.JObj? then PausedFromDict(py, raw.fields) else None;
    var seqNo, history := IntOr(py, d, "seq"), ListOr(py, d, "conversation_history");
    if || (raw.JObj? && paused.None?) || seqNo.None? || history.None?
       || "turn_id" !in d || "session_id" !in d || "user_id" !in d
    then None
    else Some(TurnRecord(
      Str(py, d["turn_id"]), Str(py, d["session_id"]), Str(py, d["user_id"]), StrOr(py, d, "status", "running"),
      seqNo.value, paused, StrOr(py, d, "user_message", ""), history.value, StrOr(py, d, "capability", "chat"),
      StrOr(py, d, "language", "en"), Field(d, "cefr_level"), Field(d, "persona")))
  }

  /** The fields that the reader replaces by a default when they are empty. */
  predicate Storable(r: TurnRecord) {
    && r.status != "" && r.capability != "" && r.language != ""
    && (r.paused.Some? ==> r.paused.value.capability != "" && r.paused.value.language != "")
  }

  function Or(text: string, fallback: string): string {
    if text == "" then fallback else text
  }

  /** A written paused state reads back with the defaults for an empty capability and language. */
  lemma PausedRoundTrip(py: Python, p: PausedTurn)
    ensures PausedFromDict(py, PausedToDict(p)) ==
            Some(p.(capability := Or(p.capability, "chat"), language := Or(p.language, "en")))
    ensures PausedFromDict(py, PausedToDict(p)) == Some(p) <==> p.capability != "" && p.language != ""
  {
  }

  ghost predicate Holds(d: Document, r: TurnRecord, paused: Json) {
    && Get(d, "turn_id") == Some(JStr(r.turnId)) && Get(d, "session_id") == Some(JStr(r.sessionId))
    && Get(d, "user_id") == Some(JStr(r.userId)) && Get(d, "status") == Some(JStr(r.status))
    && Get(d, "seq") == Some(JInt(r.seqNo)) && Get(d, "paused") == Some(paused)
    && Get(d, "user_message") == Some(JStr(r.userMessage))
    && Get(d, "conversation_history") == Some(JArr(r.conversationHistory))
    && Get(d, "capability") == Some(JStr(r.capability)) && Get(d, "language") == Some(JStr(r.language))
    && Get(d, "cefr_level") == Some(r.cefrLevel) && Get(d, "persona") == Some(r.persona)
  }

  lemma DocumentReadsBack(py: Python, d: Document, r: TurnRecord, paused: Json)
    requires Holds(d, r, paused)
    requires if paused.JObj? then PausedFromDict(py, paused.fields).Some? else paused == JNull
    ensures FromJson(py, d) ==
            Some(r.(status := Or(r.status, "running"), capability := Or(r.capability, "chat"),
                    language := Or(r.language, "en"),
                    paused := if paused.JObj? then PausedFromDict(py, paused.fields) else None))
  {
  }

  lemma DocumentHolds(r: TurnRecord)
    ensures Holds(ToJson(r), r, PausedJson(r))
  {
  }

  /** Writing and reading a record gives it back with the defaults for those fields that are empty - so
      unchanged exactly when none of them is. */
  lemma RoundTrip(py: Python, r: TurnRecord)
    ensures FromJson(py, ToJson(r)) ==
            Some(r.(status := Or(r.status, "running"), capability := Or(r.capability, "chat"),
                    language := Or(r.language, "en"),
                    paused := if r.paused.None? then None
                              else var p := r.paused.value;
                                   Some(p.(capability := Or(p.capability, "chat"), language := Or(p.language, "en")))))
    ensures FromJson(py, ToJson(r)) == Some(r) <==> Storable(r)
  {
    if r.paused.Some? {
      PausedRoundTrip(py, r.paused.value);
    }
    DocumentHolds(r);
    DocumentReadsBack(py, ToJson(r), r, PausedJson(r));
  }

  // ---------------------------------------------------------- operations and answers

  datatype Op =
    | Acquire(sessionId: string, turnId: string)
    | Release(sessionId: string, turnId: string)
    | Save(record: TurnRecord)
    | GetTurn(turnId: string)
    | GetSessionTurnId(sessionId: string)
    | Delete(turnId: string)

  /** `Retries` is an acquisition that calls itself again without end. */
  datatype Answer = Done | Flag(ok: bool) | Retries | Turn(turn: Option<TurnRecord>) | SessionTurn(id: Option<string>)

  // ------------------------------------------------------------- the in-memory store

  datatype Memory = Memory(turns: map<string, TurnRecord>, sessions: map<string, string>) {
    predicate HeldByAnother(sessionId: string, turnId: string) {
      var holder := Get(sessions, sessionId);
      && holder.Some? && holder.value != "" && holder.value != turnId
      && holder.value in turns && turns[holder.value].Running()
    }

    function AfterAcquire(sessionId: string, turnId: string): Memory {
      if HeldByAnother(sessionId, turnId) then this else this.(sessions := sessions[sessionId := turnId])
    }

    function AfterRelease(sessionId: string, turnId: string): Memory {
      if Get(sessions, sessionId) == Some(turnId) then this.(sessions := sessions - {sessionId}) else this
    }

    function AfterSave(r: TurnRecord): Memory {
      Memory(turns[r.turnId := r], sessions[r.sessionId := r.turnId])
    }

    function AfterDelete(turnId: string): Memory {
      var rest := this.(turns := turns - {turnId});
      if turnId in turns then rest.AfterRelease(turns[turnId].sessionId, turnId) else rest
    }

    function Next(op: Op): Memory {
      match op
      case Acquire(s, t) => AfterAcquire(s, t)
      case Release(s, t) => AfterRelease(s, t)
      case Save(r) => AfterSave(r)
      case Delete(t) => AfterDelete(t)
      case _ => this
    }

    function Reply(op: Op): Answer {
      match op
      case Acquire(s, t) => Flag(!HeldByAnother(s, t))
      case GetTurn(t) => Turn(Get(turns, t))
      case GetSessionTurnId(s) => SessionTurn(Get(sessions, s))
      case _ => Done
    }
  }

  class InMemoryTurnStateStore {
    var turns: map<string, TurnRecord>
    var sessionTurn: map<string, string>

    function State(): Memory
      reads this
    {
      Memory(turns, sessionTurn)
    }

    constructor ()
      ensures State() == Memory(map[], map[])
    {
      turns, sessionTurn := map[], map[];
    }

    method AcquireSession(sessionId: string, turnId: string) returns (ok: bool)
      modifies this
      ensures State() == old(State()).Next(Acquire(sessionId, turnId))
      ensures Flag(ok) == old(State()).Reply(Acquire(sessionId, turnId))
      ensures var holder := Get(old(sessionTurn), sessionId);
              !ok <==> holder.Some? && holder.value !in {"", turnId} && holder.value in old(turns) &&
                       old(turns)[holder.value].status == "running"
      ensures turns == old(turns)
      ensures sessionTurn == if ok then old(sessionTurn)[sessionId := turnId] else old(sessionTurn)
    {
      var existing := Get(sessionTurn, sessionId);
      if existing.Some? && existing.value != "" && existing.value != turnId {
        var turn := Get(turns, existing.value);
        if turn.Some? && turn.value.status == "running" {
          return false;
        }
      }
      sessionTurn := sessionTurn[sessionId := turnId];
      return true;
    }

    method ReleaseSession(sessionId: string, turnId: string)
      modifies this
      ensures State() == old(State()).Next(Release(sessionId, turnId))
    {
      if Get(sessionTurn, sessionId) == Some(turnId) {
        sessionTurn := sessionTurn - {sessionId};
      }
    }

    method SaveTurn(record: TurnRecord)
      modifies this
      ensures State() == old(State()).Next(Save(record))
    {
      turns := turns[record.turnId := record];
      sessionTurn := sessionTurn[record.sessionId := record.turnId];
    }

    method GetTurn(turnId: string) returns (turn: Option<TurnRecord>)
      ensures Answer.Turn(turn) == State().Reply(Op.GetTurn(turnId))
    {
      turn := Get(turns, turnId);
    }

    method GetSessionTurnId(sessionId: string) returns (turnId: Option<string>)
      ensures SessionTurn(turnId) == State().Reply(Op.GetSessionTurnId(sessionId))
    {
      turnId := Get(sessionTurn, sessionId);
    }

    method DeleteTurn(turnId: string)
      modifies this
      ensures State() == old(State()).Next(Delete(turnId))
      ensures turns == old(turns) - {turnId}
      ensures forall s :: Get(sessionTurn, s) ==
                if turnId in old(turns) && s == old(turns)[turnId].sessionId && Get(old(sessionTurn), s) == Some(turnId)
                then None else Get(old(sessionTurn), s)
    {
      var record := Get(turns, turnId);
      turns := turns - {turnId};
      if record.Some? && Get(sessionTurn, record.value.sessionId) == Some(turnId) {
        sessionTurn := sessionTurn - {record.value.sessionId};
      }
    }
  }

  // ----------------------------------------------------------------- the Redis store

  const TURN_KEY_PREFIX := "tutor:turn:"
  const SESSION_KEY_PREFIX := "tutor:session:"

  function TurnKey(turnId: string): string {
    TURN_KEY_PREFIX + turnId
  }

  function SessionKey(sessionId: string): string {
    SESSION_KEY_PREFIX + sessionId
  }

  /** A Redis string: a plain one, or the printed form of a document. */
  datatype Value = Plain(text: string) | Printed(document: Document)

  type Keys = map<string, Value>

  function SessionOf(kv: Keys, sessionId: string): Option<string> {
    var value := Get(kv, SessionKey(sessionId));
    if value.Some? && value.value.Plain? then Some(value.value.text) else None
  }

  function TurnOf(py: Python, kv: Keys, turnId: string): Option<TurnRecord> {
    var value := Get(kv, TurnKey(turnId));
    if value.Some? && value.value.Printed? then FromJson(py, value.value.document) else None
  }

  class RedisTurnStateStore {
    const py: Python
    var kv: Keys

    constructor (py: Python)
      ensures this.py == py && kv == map[]
    {
      this.py := py;
      kv := map[];
    }

    /** An empty id in the session key makes the code try again - for ever, if it stays there. */
    method AcquireSession(sessionId: string, turnId: string) returns (answer: Answer)
      modifies this
      ensures kv == RedisNext(py, old(kv), Acquire(sessionId, turnId))
      ensures answer == RedisReply(py, old(kv), Acquire(sessionId, turnId))
    {
      var key := SessionKey(sessionId);
      if key !in kv {
        kv := kv[key := Plain(turnId)];
        return Flag(true);
      }
      var existing := SessionOf(kv, sessionId);
      if existing == Some("") {
        return Retries;
      }
      if existing == Some(turnId) {
        return Flag(true);
      }
      if existing.Some? {
        var turn := GetTurn(existing.value);
        if turn.Some? && turn.value.status == "running" {
          return Flag(false);
        }
      }
      kv := kv[key := Plain(turnId)];
      return Flag(true);
    }

    method ReleaseSession(sessionId: string, turnId: string)
      modifies this
      ensures kv == RedisNext(py, old(kv), Release(sessionId, turnId))
    {
      var key := SessionKey(sessionId);
      if SessionOf(kv, sessionId) == Some(turnId) {
        kv := kv - {key};
      }
    }

    method SaveTurn(record: TurnRecord)
      modifies this
      ensures kv == RedisNext(py, old(kv), Save(record))
    {
      kv := kv[TurnKey(record.turnId) := Printed(ToJson(record))];
      kv := kv[SessionKey(record.sessionId) := Plain(record.turnId)];
    }

    method GetTurn(turnId: string) returns (turn: Option<TurnRecord>)
      ensures Answer.Turn(turn) == RedisReply(py, kv, Op.GetTurn(turnId))
    {
      turn := TurnOf(py, kv, turnId);
    }

    method GetSessionTurnId(sessionId: string) returns (turnId: Option<string>)
      ensures SessionTurn(turnId) == RedisReply(py, kv, Op.GetSessionTurnId(sessionId))
    {
      turnId := SessionOf(kv, sessionId);
      if turnId == Some("") {
        turnId := None;
      }
    }

    method DeleteTurn(turnId: string)
      modifies this
      ensures kv == RedisNext(py, old(kv), Delete(turnId))
    {
      var record := GetTurn(turnId);
      kv := kv - {TurnKey(turnId)};
      if record.Some? {
        ReleaseSession(record.value.sessionId, turnId);
      }
    }
  }

  function RedisAcquires(py: Python, kv: Keys, sessionId: string, turnId: string): bool {
    var holder := SessionOf(kv, sessionId);
    holder.None? || holder.value == turnId ||
    var turn := TurnOf(py, kv, holder.value); turn.None? || !turn.value.Running()
  }

  function RedisNext(py: Python, kv: Keys, op: Op): Keys {
    match op
    case Acquire(s, t) =>
      if SessionOf(kv, s) != Some("") && RedisAcquires(py, kv, s, t) then kv[SessionKey(s) := Plain(t)] else kv
    case Release(s, t) => if SessionOf(kv, s) == Some(t) then kv - {SessionKey(s)} else kv
    case Save(r) => kv[TurnKey(r.turnId) := Printed(ToJson(r))][SessionKey(r.sessionId) := Plain(r.turnId)]
    case Delete(t) =>
      var rest := kv - {TurnKey(t)};
      var record := TurnOf(py, kv, t);
      if record.Some? && SessionOf(rest, record.value.sessionId) == Some(t)
      then rest - {SessionKey(record.value.sessionId)} else rest
    case _ => kv
  }

  function RedisReply(py: Python, kv: Keys, op: Op): Answer {
    match op
    case Acquire(s, t) => if SessionOf(kv, s) == Some("") then Retries else Flag(RedisAcquires(py, kv, s, t))
    case GetTurn(t) => Turn(TurnOf(py, kv, t))
    case GetSessionTurnId(s) => var id := SessionOf(kv, s); SessionTurn(if id == Some("") then None else id)
    case _ => Done
  }

  // ------------------------------------------------------------------ trace equivalence

  lemma KeysAreSeparate(a: string, b: string)
    ensures TurnKey(a) != SessionKey(b)
    ensures TurnKey(a) == TurnKey(b) ==> a == b
    ensures SessionKey(a) == SessionKey(b) ==> a == b
  {
    assert TurnKey(a)[6] == 't' && SessionKey(b)[6] == 's';
    assert TurnKey(a)[|TURN_KEY_PREFIX|..] == a && TurnKey(b)[|TURN_KEY_PREFIX|..] == b;
    assert SessionKey(a)[|SESSION_KEY_PREFIX|..] == a && SessionKey(b)[|SESSION_KEY_PREFIX|..] == b;
  }

  /** The same turns and the same sessions. */
  ghost predicate Related(py: Python, m: Memory, kv: Keys) {
    && (forall t :: TurnOf(py, kv, t) == Get(m.turns, t))
    && (forall s :: SessionOf(kv, s) == Get(m.sessions, s))
    && (forall s :: s in m.sessions ==> m.sessions[s] != "")
    && (forall s :: SessionKey(s) in kv ==> kv[SessionKey(s)].Plain?)
  }

  /** What callers do: ids of turns are not empty, and saved records survive the round trip. */
  predicate Proper(op: Op) {
    match op
    case Acquire(_, t) => t != ""
    case Save(r) => r.turnId != "" && Storable(r)
    case _ => true
  }

  lemma SessionChanged(py: Python, m: Memory, kv: Keys, s: string, kv': Keys, sessions': map<string, string>)
    requires Related(py, m, kv)
    requires forall key :: key != SessionKey(s) ==> Get(kv', key) == Get(kv, key)
    requires forall x :: x != s ==> Get(sessions', x) == Get(m.sessions, x)
    requires SessionOf(kv', s) == Get(sessions', s)
    requires s in sessions' ==> sessions'[s] != ""
    requires SessionKey(s) in kv' ==> kv'[SessionKey(s)].Plain?
    ensures Related(py, m.(sessions := sessions'), kv')
  {
    forall x
      ensures TurnOf(py, kv', x) == Get(m.turns, x)
      ensures SessionOf(kv', x) == Get(sessions', x)
      ensures x in sessions' ==> sessions'[x] != ""
      ensures SessionKey(x) in kv' ==> kv'[SessionKey(x)].Plain?
    {
      KeysAreSeparate(x, s);
      assert TurnOf(py, kv, x) == Get(m.turns, x);
      if x != s {
        assert SessionOf(kv, x) == Get(m.sessions, x) && Get(sessions', x) == Get(m.sessions, x);
        assert Get(kv', SessionKey(x)) == Get(kv, SessionKey(x));
      }
    }
  }

  lemma TurnChanged(py: Python, m: Memory, kv: Keys, t: string, kv': Keys, turns': map<string, TurnRecord>)
    requires Related(py, m, kv)
    requires forall key :: key != TurnKey(t) ==> Get(kv', key) == Get(kv, key)
    requires forall x :: x != t ==> Get(turns', x) == Get(m.turns, x)
    requires TurnOf(py, kv', t) == Get(turns', t)
    ensures Related(py, m.(turns := turns'), kv')
  {
    forall x
      ensures TurnOf(py, kv', x) == Get(turns', x)
      ensures SessionOf(kv', x) == Get(m.sessions, x)
      ensures SessionKey(x) in kv' ==> kv'[SessionKey(x)].Plain?
    {
      KeysAreSeparate(t, x);
      KeysAreSeparate(x, x);
      assert SessionOf(kv, x) == Get(m.sessions, x);
      assert Get(kv', SessionKey(x)) == Get(kv, SessionKey(x));
      if x != t {
        KeysAreSeparate(x, t);
        assert TurnKey(x) != TurnKey(t);
        assert TurnOf(py, kv, x) == Get(m.turns, x) && Get(turns', x) == Get(m.turns, x);
      }
    }
  }

  lemma TurnSaved(py: Python, m: Memory, kv: Keys, r: TurnRecord, d: Document)
    requires Related(py, m, kv) && FromJson(py, d) == Some(r)
    ensures Related(py, m.(turns := m.turns[r.turnId := r]), kv[TurnKey(r.turnId) := Printed(d)])
  {
    TurnChanged(py, m, kv, r.turnId, kv[TurnKey(r.turnId) := Printed(d)], m.turns[r.turnId := r]);
  }

  lemma SaveAgrees(py: Python, m: Memory, kv: Keys, r: TurnRecord, d: Document)
    requires Related(py, m, kv) && FromJson(py, d) == Some(r) && r.turnId != ""
    ensures Related(py, m.AfterSave(r), kv[TurnKey(r.turnId) := Printed(d)][SessionKey(r.sessionId) := Plain(r.turnId)])
  {
    TurnSaved(py, m, kv, r, d);
    var m', kv' := m.(turns := m.turns[r.turnId := r]), kv[TurnKey(r.turnId) := Printed(d)];
    SessionChanged(py, m', kv', r.sessionId, kv'[SessionKey(r.sessionId) := Plain(r.turnId)],
      m'.sessions[r.sessionId := r.turnId]);
  }

  lemma DeleteAgrees(py: Python, m: Memory, kv: Keys, t: string)
    requires Related(py, m, kv)
    ensures Related(py, m.AfterDelete(t), RedisNext(py, kv, Delete(t)))
  {
    var m', kv' := m.(turns := m.turns - {t}), kv - {TurnKey(t)};
    TurnChanged(py, m, kv, t, kv', m'.turns);
    assert TurnOf(py, kv, t) == Get(m.turns, t);
    if t in m.turns {
      var s := m.turns[t].sessionId;
      assert SessionOf(kv', s) == Get(m'.sessions, s);
      SessionChanged(py, m', kv', s, kv' - {SessionKey(s)}, m'.sessions - {s});
    }
  }

  /** One operation: the same answer, and stores that still hold the same. */
  lemma StepsAgree(py: Python, m: Memory, kv: Keys, op: Op)
    requires Related(py, m, kv) && Proper(op)
    ensures RedisReply(py, kv, op) == m.Reply(op)
    ensures Related(py, m.Next(op), RedisNext(py, kv, op))
  {
    match op
    case Acquire(s, t) =>
      assert SessionOf(kv, s) == Get(m.sessions, s);
      assert s in m.sessions ==> TurnOf(py, kv, m.sessions[s]) == Get(m.turns, m.sessions[s]);
      SessionChanged(py, m, kv, s, kv[SessionKey(s) := Plain(t)], m.sessions[s := t]);
    case Release(s, t) =>
      assert SessionOf(kv, s) == Get(m.sessions, s);
      SessionChanged(py, m, kv, s, kv - {SessionKey(s)}, m.sessions - {s});
    case Save(r) =>
      RoundTrip(py, r);
      SaveAgrees(py, m, kv, r, ToJson(r));
    case Delete(t) =>
      DeleteAgrees(py, m, kv, t);
    case GetTurn(t) =>
    case GetSessionTurnId(s) =>
      assert SessionOf(kv, s) == Get(m.sessions, s);
  }

  function MemoryReplies(m: Memory, ops: seq<Op>): seq<Answer>
    decreases |ops|
  {
    if ops == [] then [] else [m.Reply(ops[0])] + MemoryReplies(m.Next(ops[0]), ops[1..])
  }

  function RedisReplies(py: Python, kv: Keys, ops: seq<Op>): seq<Answer>
    decreases |ops|
  {
    if ops == [] then [] else [RedisReply(py, kv, ops[0])] + RedisReplies(py, RedisNext(py, kv, ops[0]), ops[1..])
  }

  lemma {:induction false} TracesAgreeFrom(py: Python, m: Memory, kv: Keys, ops: seq<Op>)
    requires Related(py, m, kv) && forall i :: 0 <= i < |ops| ==> Proper(ops[i])
    ensures RedisReplies(py, kv, ops) == MemoryReplies(m, ops)
    decreases |ops|
  {
    if ops != [] {
      StepsAgree(py, m, kv, ops[0]);
      TracesAgreeFrom(py, m.Next(ops[0]), RedisNext(py, kv, ops[0]), ops[1..]);
    }
  }

  /** The stores are interchangeable: any sequence of operations gets the same answers from both. */
  lemma TracesAgree(py: Python, ops: seq<Op>)
    requires forall i :: 0 <= i < |ops| ==> Proper(ops[i])
    ensures RedisReplies(py, map[], ops) == MemoryReplies(Memory(map[], map[]), ops)
  {
    TracesAgreeFrom(py, Memory(map[], map[]), map[], ops);
  }
}
