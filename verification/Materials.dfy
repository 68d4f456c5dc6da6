/**
 * The database transactions around parsing and index rollout, as functions on the tables: one call is
 * one committed transaction. MaterialStore.dfy runs the same transactions on mutable fields.
 */
module Materials {
  import opened Options
  import opened Text
  import opened Chunking
  import opened ChunkingProofs
  import opened Documents

  // ---------------------------------------------------------------- the outside world

  /** The bytes handed to an office-document reader: an uploaded file, or the text of the row. */
  datatype Blob = Stored(key: string) | Inline(text: string)

  /**
   * What this project does not compute: the cleaning expressions, the text of stored files, the office
   * readers, and the hash that puts a material into one of a hundred rollout cohorts.
   */
  datatype Env = Env(
    cfg: Settings,
    scrub: string -> string,
    storedText: string -> Option<string>,
    officeText: (string, Blob) -> Option<string>,
    cohort: nat -> nat)

  type World = env: Env | env.cfg.Sensible()
    witness Env(Settings(5000, 3000, 300), (s: string) => s, (k: string) => None,
                (k: string, b: Blob) => None, (id: nat) => 0)

  function Clean(env: World, text: string): string {
    Strip(env.scrub(text))
  }

  function Lower(s: string): string {
    if s == "" then ""
    else [if 'A' <= s[0] <= 'Z' then ((s[0] as int) + 32) as char else s[0]] + Lower(s[1..])
  }

  function DropDots(s: string): string {
    if s != "" && s[0] == '.' then DropDots(s[1..]) else s
  }

  function FileKind(fileType: string): string {
    DropDots(Lower(if fileType == "" then "txt" else fileType))
  }

  predicate IsTextKind(kind: string) {
    kind == "txt" || kind == "md" || kind == "markdown"
  }

  /** The text that parsing starts from; none when the extraction raises. */
  function ExtractText(env: World, fileType: string, content: string, storageKey: string): Option<string> {
    var kind := FileKind(fileType);
    if IsTextKind(kind) && content != "" then Some(content)
    else if IsTextKind(kind) then (if storageKey != "" then env.storedText(storageKey) else Some(content))
    else if kind == "docx" || kind == "pdf" then
      env.officeText(kind, if storageKey != "" then Stored(storageKey) else Inline(content))
    else None
  }

  /** What the content column holds after n parses that each start from the result of the one before. */
  function ParseTimes(env: World, fileType: string, storageKey: string, n: nat, text: string): Option<string> {
    if n == 0 then Some(text)
    else
      match ParseTimes(env, fileType, storageKey, n - 1, text)
      case None => None
      case Some(before) =>
        match ExtractText(env, fileType, before, storageKey)
        case None => None
        case Some(extracted) => Some(Clean(env, extracted))
  }

  // ---------------------------------------------------------------- the tables

  datatype Version = LegacyV1 | RagV2

  datatype Standing = Building | Active | Retired

  datatype Status = Pending | Parsing | Done | Failed

  /**
   * A material row with its chunk rows per index version. The last two fields are history the database
   * does not store: the content as a user last set it, and the number of persists since then.
   */
  datatype Material = Material(
    status: Status, generation: nat, error: Option<string>,
    content: Option<string>, fileType: Option<string>, storageKey: Option<string>,
    index: Version, legacy: seq<ChunkRecord>, v2: seq<ChunkRecord>,
    edit: string, passes: nat)

  datatype Versions = Versions(
    legacy: Standing, legacySince: Option<nat>, v2: Standing, v2Since: Option<nat>)

  datatype Db = Db(materials: map<nat, Material>, nextId: nat, versions: Versions)

  function Deref(s: Option<string>): string {
    match s case None => "" case Some(value) => value
  }

  predicate HasBody(chunks: seq<ChunkRecord>) {
    exists i :: 0 <= i < |chunks| && chunks[i].kind == Body
  }

  /** The chunks that retrieval sees: those under the material's own index version. */
  function Visible(m: Material): seq<ChunkRecord> {
    if m.index == RagV2 then m.v2 else m.legacy
  }

  predicate Served(m: Material) {
    HasBody(Visible(m))
  }

  /** The content and history that a worker carries away from its claim. */
  datatype Payload = Payload(content: string, fileType: string, storageKey: string, edit: string, passes: nat)

  datatype Task = Task(material: nat, generation: nat, payload: Payload)

  // ---------------------------------------------------------------- the parse-task transactions

  function NewMaterial(content: Option<string>, fileType: Option<string>, storageKey: Option<string>): Material {
    Material(Pending, 1, None, content, fileType, storageKey, LegacyV1, [], [], Deref(content), 0)
  }

  function Create(db: Db, content: Option<string>, fileType: Option<string>, storageKey: Option<string>): Db {
    db.(materials := db.materials[db.nextId := NewMaterial(content, fileType, storageKey)],
        nextId := db.nextId + 1)
  }

  function Delete(db: Db, id: nat): Db {
    db.(materials := db.materials - {id})
  }

  /** Back to the queue under a new generation. */
  function Requeue(m: Material): Material {
    m.(status := Pending, error := None, generation := m.generation + 1)
  }

  function Edited(m: Material, content: string): Material {
    if m.content == Some(content) then m
    else Requeue(m).(content := Some(content), edit := content, passes := 0)
  }

  /** A user edit; a patch without content leaves the columns modelled here alone. */
  function Edit(db: Db, id: nat, content: Option<string>): Db {
    if id in db.materials && content.Some?
    then db.(materials := db.materials[id := Edited(db.materials[id], content.value)])
    else db
  }

  function TaskOf(id: nat, m: Material): Task {
    Task(id, m.generation,
         Payload(Deref(m.content), Deref(m.fileType), Deref(m.storageKey), m.edit, m.passes))
  }

  function Claim(db: Db, id: nat): (Db, Option<Task>) {
    if id in db.materials && db.materials[id].status == Pending
    then
      var m := db.materials[id];
      (db.(materials := db.materials[id := m.(status := Parsing, error := None)]), Some(TaskOf(id, m)))
    else (db, None)
  }

  predicate Holds(db: Db, id: nat, generation: nat) {
    id in db.materials && db.materials[id].status == Parsing && db.materials[id].generation == generation
  }

  /** Completes a task the caller still holds; a message means failure. */
  function Finish(db: Db, id: nat, generation: nat, failure: Option<string>): (Db, bool) {
    if Holds(db, id, generation)
    then
      var m := db.materials[id];
      var status := if failure.None? then Done else Failed;
      (db.(materials := db.materials[id := m.(status := status, error := failure)]), true)
    else (db, false)
  }

  function RequeueFailed(db: Db, id: nat): (Db, bool) {
    if id in db.materials && db.materials[id].status == Failed
    then (db.(materials := db.materials[id := Requeue(db.materials[id])]), true)
    else (db, false)
  }

  function Recovered(m: Material): Material {
    if m.status == Parsing then Requeue(m) else m
  }

  function RequeueInterrupted(db: Db): Db {
    db.(materials := map id | id in db.materials :: Recovered(db.materials[id]))
  }

  // ---------------------------------------------------------------- the Agent's persist transaction

  datatype PersistOutcome = Missing | Stale | Committed(db: Db)

  function WithDocument(m: Material, versions: Versions, doc: Parsed, passes: nat): Material {
    m.(v2 := doc.chunks, content := Some(doc.markdown), passes := passes + 1,
       index := if versions.v2 == Active || m.legacy == [] then RagV2 else LegacyV1)
  }

  function Persist(db: Db, task: Task, doc: Parsed): PersistOutcome {
    if task.material !in db.materials then Missing
    else if !Holds(db, task.material, task.generation) then Stale
    else Committed(db.(materials := db.materials[task.material :=
                    WithDocument(db.materials[task.material], db.versions, doc, task.payload.passes)]))
  }

  // ---------------------------------------------------------------- the operator scripts

  /** The partial unique index on active versions: a statement that breaks it aborts the script. */
  function Checked(versions: Versions): Option<Versions> {
    if versions.legacy == Active && versions.v2 == Active then None else Some(versions)
  }

  const FORTNIGHT: nat := 1209600

  predicate ReadyForV2(m: Material) {
    m.status == Done && HasBody(m.v2)
  }

  function FirstSwitch(versions: Versions, percentage: nat): Versions {
    if percentage == 100
    then versions.(legacy := if versions.legacy == Active then Retired else versions.legacy)
    else versions.(v2 := Building, v2Since := None)
  }

  function SecondSwitch(versions: Versions, percentage: nat, now: nat): Versions {
    if percentage == 100 then versions.(v2 := Active, v2Since := Some(now))
    else versions.(legacy := Active,
                   legacySince := if versions.legacySince.None? then Some(now) else versions.legacySince)
  }

  function Assigned(env: World, id: nat, m: Material, percentage: nat): Version {
    if percentage == 100 || env.cohort(id) % 100 < percentage then RagV2
    else if HasBody(m.legacy) then LegacyV1
    else RagV2
  }

  function Reassigned(env: World, id: nat, m: Material, percentage: nat): Material {
    m.(index := Assigned(env, id, m, percentage))
  }

  /** activate_rag_v2.sql; none when the script raises and nothing changes. */
  function Activate(env: World, db: Db, percentage: nat, now: nat): Option<Db> {
    if percentage != 10 && percentage != 50 && percentage != 100 then None
    else if exists id :: id in db.materials && !ReadyForV2(db.materials[id]) then None
    else
      match Checked(FirstSwitch(db.versions, percentage))
      case None => None
      case Some(first) =>
        match Checked(SecondSwitch(first, percentage, now))
        case None => None
        case Some(second) =>
          Some(db.(versions := second,
                   materials := map id | id in db.materials :: Reassigned(env, id, db.materials[id], percentage)))
  }

  function BackToLegacy(m: Material): Material {
    if m.legacy != [] then m.(index := LegacyV1) else m
  }

  /** rollback_rag_v2.sql */
  function Rollback(db: Db, now: nat): Option<Db> {
    match Checked(db.versions.(v2 := Building, v2Since := None))
    case None => None
    case Some(first) =>
      match Checked(first.(legacy := Active, legacySince := Some(now)))
      case None => None
      case Some(second) =>
        Some(db.(versions := second,
                 materials := map id | id in db.materials :: BackToLegacy(db.materials[id])))
  }

  predicate MayRetire(versions: Versions, now: nat) {
    versions.v2 == Active && versions.v2Since.Some? && versions.v2Since.value + FORTNIGHT <= now
  }

  function WithoutLegacy(m: Material): Material {
    m.(legacy := [])
  }

  /** retire_legacy_rag.sql */
  function Retire(db: Db, now: nat): Option<Db> {
    if !MayRetire(db.versions, now) then None
    else Some(db.(versions := db.versions.(legacy := Retired),
                  materials := map id | id in db.materials :: WithoutLegacy(db.materials[id])))
  }

  function Reindexed(m: Material): Material {
    if HasBody(m.v2) then m else Requeue(m)
  }

  /** reindex_rag_v2.sql */
  function Reindex(db: Db): Db {
    db.(versions := if db.versions.v2 != Active then db.versions.(v2 := Building, v2Since := None) else db.versions,
        materials := map id | id in db.materials :: Reindexed(db.materials[id]))
  }
}
