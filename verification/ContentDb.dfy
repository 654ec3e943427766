/**
 The tables behind the GraphQL content mutations, as values, and each mutation as a
 function from tables to tables. The class `ContentStore.Store` performs the same
 mutations step by step and is proved equal to these functions.
 */
module ContentDb {
  import opened Outcomes

  datatype Kind = Collection | Singleton

  datatype ContentType = ContentType(domain: nat, slug: string, kind: Kind, schema: string)

  /** A content item row: the head of its version history. */
  datatype Item = Item(
    domain: nat, contentTypeId: int, data: string, status: string, version: nat, updatedAt: int)

  /** A history row. It does not record the content type the head had. */
  datatype VersionRow = VersionRow(itemId: int, version: nat, data: string, status: string, createdAt: int)

  /** The three tables and the two id sequences. */
  datatype Db = Db(
    types: map<int, ContentType>,
    items: map<int, Item>,
    versions: seq<VersionRow>,
    nextTypeId: int,
    nextItemId: int)

  const EMPTY_DB: Db := Db(map[], map[], [], 1, 1)

  /**
   The services the mutations call.
   `references(schema, data)`: the content item ids the data refers to.
   `validate(schema, data, domain, types)`: the failure code, given the content types
   of those referenced items that exist in the domain.
   `governed(domain, type)`: the type has an active workflow.
   */
  datatype Services = Services(
    references: (string, string) -> set<int>,
    validate: (string, string, nat, map<int, int>) -> Option<string>,
    governed: (nat, int) -> bool)

  datatype Code =
    | EmptyUpdateBody | ItemNotFound | TypeNotFound | Invalid(reason: string)
    | WorkflowForbidden | SingletonExists | InvalidKind | SlugConflict
    | SingletonNeedsOneItem | TypeInUse | GlobalNotFound | VersionNotFound
    | SchemaSourceConflict | SchemaSourceRequired

  /** Optional new values for an item; an absent field is left as it is. */
  datatype Patch = Patch(contentTypeId: Option<int>, data: Option<string>, status: Option<string>) {
    predicate Empty() { contentTypeId.None? && data.None? && status.None? }

    /** `data` is tested for truthiness before use, so an empty string counts as absent. */
    function DropEmptyData(): Patch {
      if data == Some("") then this.(data := None) else this
    }

    predicate ChangesStatusOf(item: Item) {
      status.Some? && status.value != "" && status.value != item.status
    }
  }

  datatype UpdateRow = UpdateRow(id: int, patch: Patch)

  datatype NewItem = NewItem(contentTypeId: int, data: string, status: Option<string>) {
    function InitialStatus(): string {
      if status.Some? && status.value != "" then status.value else "draft"
    }
  }

  datatype BatchRow = RowOk(index: nat, id: int, version: nat) | RowErr(index: nat, code: Code)

  datatype BatchReply =
    | EmptyBatch
    | Rows(atomic: bool, rows: seq<BatchRow>)
    | AtomicFailed(index: nat, code: Code)

  // ---------------------------------------------------------------- queries

  function FindItem(db: Db, domain: nat, id: int): Option<Item> {
    if id in db.items && db.items[id].domain == domain then Some(db.items[id]) else None
  }

  function FindType(db: Db, domain: nat, id: int): Option<ContentType> {
    if id in db.types && db.types[id].domain == domain then Some(db.types[id]) else None
  }

  predicate InType(db: Db, domain: nat, typeId: int, id: int) {
    id in db.items && db.items[id].domain == domain && db.items[id].contentTypeId == typeId
  }

  /** The singleton conflict query: some item of the type, other than `except`. */
  predicate Occupied(db: Db, domain: nat, typeId: int, except: Option<int>) {
    exists id :: id in db.items && InType(db, domain, typeId, id) && except != Some(id)
  }

  function MembersOf(db: Db, domain: nat, typeId: int): set<int> {
    set id | id in db.items && InType(db, domain, typeId, id)
  }

  predicate SlugTaken(db: Db, domain: nat, slug: string, except: Option<int>) {
    exists t :: t in db.types && db.types[t].domain == domain && db.types[t].slug == slug && except != Some(t)
  }

  function ReferencedTypes(db: Db, domain: nat, ids: set<int>): map<int, int> {
    map id | id in ids && id in db.items && db.items[id].domain == domain :: db.items[id].contentTypeId
  }

  function SchemaFailure(db: Db, svc: Services, domain: nat, schema: string, data: string): Option<string> {
    svc.validate(schema, data, domain, ReferencedTypes(db, domain, svc.references(schema, data)))
  }

  predicate IsGlobal(db: Db, domain: nat, slug: string, t: int) {
    t in db.types && db.types[t].domain == domain && db.types[t].slug == slug && db.types[t].kind.Singleton?
  }

  /** History rows of one item, oldest first. */
  function RowsOf(versions: seq<VersionRow>, id: int): seq<VersionRow> {
    if |versions| == 0 then [] else
    var last := versions[|versions| - 1];
    var earlier := RowsOf(versions[..|versions| - 1], id);
    if last.itemId == id then earlier + [last] else earlier
  }

  function WithoutRows(versions: seq<VersionRow>, id: int): seq<VersionRow> {
    if |versions| == 0 then [] else
    var last := versions[|versions| - 1];
    var earlier := WithoutRows(versions[..|versions| - 1], id);
    if last.itemId == id then earlier else earlier + [last]
  }

  predicate HasVersion(versions: seq<VersionRow>, id: int, version: int) {
    exists k :: 0 <= k < |versions| && versions[k].itemId == id && versions[k].version == version
  }

  // ---------------------------------------------------------------- elementary writes

  function Snapshot(id: int, item: Item): VersionRow {
    VersionRow(id, item.version, item.data, item.status, item.updatedAt)
  }

  /** Archives the current head of `id` and puts `head` in its place. */
  function WriteHead(db: Db, id: int, head: Item): Db
    requires id in db.items
  {
    db.(versions := db.versions + [Snapshot(id, db.items[id])], items := db.items[id := head])
  }

  function Patched(item: Item, patch: Patch, now: int): Item {
    item.(contentTypeId := patch.contentTypeId.Or(item.contentTypeId),
          data := patch.data.Or(item.data),
          status := patch.status.Or(item.status),
          version := item.version + 1,
          updatedAt := now)
  }

  function Insert(db: Db, item: Item): Db {
    db.(items := db.items[db.nextItemId := item], nextItemId := db.nextItemId + 1)
  }

  /** Deleting an item deletes its history rows with it. */
  function Remove(db: Db, id: int): Db {
    db.(items := db.items - {id}, versions := WithoutRows(db.versions, id))
  }

  // ---------------------------------------------------------------- content types

  function NormalizeKind(raw: string): Option<Kind> {
    if raw == "collection" then Some(Collection)
    else if raw == "singleton" then Some(Singleton)
    else None
  }

  /** The schema and the manifest of a request, each with what compiling it gives: a schema text or a failure code. */
  datatype SchemaSource = SchemaSource(schema: Option<Result<string, string>>, manifest: Option<Result<string, string>>)

  /** The schema text a request brings; both sources at once are refused, and none only where one is required. */
  function ResolveSource(source: SchemaSource, required: bool): (r: Result<Option<string>, Code>)
    ensures required && r.Ok? ==> r.value.Some?
  {
    if source.schema.Some? && source.manifest.Some? then Err(SchemaSourceConflict)
    else if source.schema.None? && source.manifest.None? then (if required then Err(SchemaSourceRequired) else Ok(None))
    else match (if source.schema.Some? then source.schema.value else source.manifest.value)
      case Err(reason) => Err(Invalid(reason))
      case Ok(text) => Ok(Some(text))
  }

  function CreateType(db: Db, domain: nat, slug: string, rawKind: Option<string>, source: SchemaSource, dryRun: bool)
    : (Db, Result<int, Code>)
  {
    var kind := NormalizeKind(rawKind.Or("collection"));
    var schema := ResolveSource(source, true);
    if kind.None? then (db, Err(InvalidKind))
    else if schema.Err? then (db, Err(schema.error))
    else if dryRun then (db, Ok(0))
    else if SlugTaken(db, domain, slug, None) then (db, Err(SlugConflict))
    else
      (db.(types := db.types[db.nextTypeId := ContentType(domain, slug, kind.value, schema.value.value)],
           nextTypeId := db.nextTypeId + 1), Ok(db.nextTypeId))
  }

  /** `other` says that the request names a field this model does not keep (name or description). */
  datatype TypePatch = TypePatch(slug: Option<string>, rawKind: Option<string>, source: SchemaSource, other: bool)

  function UpdateType(db: Db, domain: nat, id: int, patch: TypePatch, dryRun: bool): (Db, Result<ContentType, Code>) {
    var schema := ResolveSource(patch.source, false);
    if patch.rawKind.Some? && NormalizeKind(patch.rawKind.value).None? then (db, Err(InvalidKind))
    else if schema.Err? then (db, Err(schema.error))
    else if patch.slug.None? && patch.rawKind.None? && schema.value.None? && !patch.other
        then (db, Err(EmptyUpdateBody))
    else match FindType(db, domain, id)
      case None => (db, Err(TypeNotFound))
      case Some(existing) =>
        var kind := if patch.rawKind.Some? then NormalizeKind(patch.rawKind.value).value else existing.kind;
        var updated := existing.(slug := patch.slug.Or(existing.slug), kind := kind,
                                 schema := schema.value.Or(existing.schema));
        if kind.Singleton? && !existing.kind.Singleton? && |MembersOf(db, domain, id)| > 1 then
          (db, Err(SingletonNeedsOneItem))
        else if dryRun then (db, Ok(updated))
        else if SlugTaken(db, domain, updated.slug, Some(id)) then (db, Err(SlugConflict))
        else (db.(types := db.types[id := updated]), Ok(updated))
  }

  /** Items do not cascade with their type: a type in use cannot be deleted. */
  function DeleteType(db: Db, domain: nat, id: int, dryRun: bool): (Db, Result<int, Code>) {
    if FindType(db, domain, id).None? then (db, Err(TypeNotFound))
    else if dryRun then (db, Ok(id))
    else if exists i :: i in db.items && db.items[i].contentTypeId == id then (db, Err(TypeInUse))
    else (db.(types := db.types - {id}), Ok(id))
  }

  // ---------------------------------------------------------------- creating items

  function FreshItem(domain: nat, item: NewItem, now: int): Item {
    Item(domain, item.contentTypeId, item.data, item.InitialStatus(), 1, now)
  }

  function CreateItem(
      db: Db, svc: Services, domain: nat, item: NewItem, dryRun: bool, now: int): (Db, Result<int, Code>) {
    match FindType(db, domain, item.contentTypeId)
    case None => (db, Err(TypeNotFound))
    case Some(ty) =>
      if ty.kind.Singleton? && Occupied(db, domain, item.contentTypeId, None) then (db, Err(SingletonExists))
      else match SchemaFailure(db, svc, domain, ty.schema, item.data)
        case Some(reason) => (db, Err(Invalid(reason)))
        case None =>
          if svc.governed(domain, item.contentTypeId) && item.InitialStatus() != "draft"
              then (db, Err(WorkflowForbidden))
          else if dryRun then (db, Ok(0))
          else (Insert(db, FreshItem(domain, item, now)), Ok(db.nextItemId))
  }

  /**
   The checks one row of a batch create passes through; the dry run skips the workflow check. The
   schema service reads the tables `seen`.
   */
  function CheckCreate(
      db: Db, seen: Db, svc: Services, domain: nat, item: NewItem, reserved: map<int, int>, index: nat,
      workflow: bool)
    : Result<map<int, int>, Code>
  {
    match FindType(db, domain, item.contentTypeId)
    case None => Err(TypeNotFound)
    case Some(ty) =>
      match SchemaFailure(seen, svc, domain, ty.schema, item.data)
      case Some(reason) => Err(Invalid(reason))
      case None =>
        if workflow && svc.governed(domain, item.contentTypeId) && item.InitialStatus() != "draft"
            then Err(WorkflowForbidden)
        else if !ty.kind.Singleton? then Ok(reserved)
        else if Occupied(db, domain, item.contentTypeId, None) || item.contentTypeId in reserved
            then Err(SingletonExists)
        else Ok(reserved[item.contentTypeId := index])
  }

  /** How far a batch has come: the tables, the singleton types already claimed, the rows reported. */
  datatype Progress = Progress(db: Db, reserved: map<int, int>, rows: seq<BatchRow>)

  function CreateDryAfter(db: Db, svc: Services, domain: nat, items: seq<NewItem>, n: nat): (p: Progress)
    requires n <= |items|
  {
    if n == 0 then Progress(db, map[], []) else
    var p := CreateDryAfter(db, svc, domain, items, n - 1);
    match CheckCreate(p.db, p.db, svc, domain, items[n - 1], p.reserved, n - 1, false)
    case Err(code) => p.(rows := p.rows + [RowErr(n - 1, code)])
    case Ok(reserved) => Progress(p.db, reserved, p.rows + [RowOk(n - 1, 0, 1)])
  }

  function CreateOne(p: Progress, domain: nat, item: NewItem, reserved: map<int, int>, index: nat, now: int): Progress {
    Progress(Insert(p.db, FreshItem(domain, item, now)), reserved, p.rows + [RowOk(index, p.db.nextItemId, 1)])
  }

  function CreatePartialAfter(
      db: Db, svc: Services, domain: nat, items: seq<NewItem>, clock: nat -> int, n: nat): (p: Progress)
    requires n <= |items|
  {
    if n == 0 then Progress(db, map[], []) else
    var p := CreatePartialAfter(db, svc, domain, items, clock, n - 1);
    match CheckCreate(p.db, p.db, svc, domain, items[n - 1], p.reserved, n - 1, true)
    case Err(code) => p.(rows := p.rows + [RowErr(n - 1, code)])
    case Ok(reserved) => CreateOne(p, domain, items[n - 1], reserved, n - 1, clock(n - 1))
  }

  /** An aborted transaction: the failing row, its code, and where the id sequence had got to. */
  datatype Abort = Abort(index: nat, code: Code, nextItemId: int)

  function CreateAtomicAfter(db: Db, svc: Services, domain: nat, items: seq<NewItem>, clock: nat -> int, n: nat)
    : (r: Result<Progress, Abort>)
    requires n <= |items|
  {
    if n == 0 then Ok(Progress(db, map[], [])) else
    match CreateAtomicAfter(db, svc, domain, items, clock, n - 1)
    case Err(a) => Err(a)
    case Ok(p) =>
      match CheckCreate(p.db, db, svc, domain, items[n - 1], p.reserved, n - 1, true)
      case Err(code) => Err(Abort(n - 1, code, p.db.nextItemId))
      case Ok(reserved) => Ok(CreateOne(p, domain, items[n - 1], reserved, n - 1, clock(n - 1)))
  }

  /** Rolling back restores the tables; an id sequence is never rolled back. */
  function CreateBatch(
      db: Db, svc: Services, domain: nat, items: seq<NewItem>, atomic: bool, dryRun: bool, clock: nat -> int)
    : (Db, BatchReply)
  {
    if |items| == 0 then (db, EmptyBatch)
    else if dryRun then (db, Rows(atomic, CreateDryAfter(db, svc, domain, items, |items|).rows))
    else if atomic then
      match CreateAtomicAfter(db, svc, domain, items, clock, |items|)
      case Err(a) => (db.(nextItemId := a.nextItemId), AtomicFailed(a.index, a.code))
      case Ok(p) => (p.db, Rows(true, p.rows))
    else
      var p := CreatePartialAfter(db, svc, domain, items, clock, |items|);
      (p.db, Rows(false, p.rows))
  }

  // ---------------------------------------------------------------- updating items

  function UpdateItem(
      db: Db, svc: Services, domain: nat, id: int, raw: Patch, dryRun: bool, now: int): (Db, Result<Item, Code>) {
    var patch := raw.DropEmptyData();
    if patch.Empty() then (db, Err(EmptyUpdateBody))
    else match FindItem(db, domain, id)
      case None => (db, Err(ItemNotFound))
      case Some(existing) =>
        var target := patch.contentTypeId.Or(existing.contentTypeId);
        match FindType(db, domain, target)
        case None => (db, Err(TypeNotFound))
        case Some(ty) =>
          if ty.kind.Singleton? && Occupied(db, domain, target, Some(id)) then (db, Err(SingletonExists))
          else match SchemaFailure(db, svc, domain, ty.schema, patch.data.Or(existing.data))
            case Some(reason) => (db, Err(Invalid(reason)))
            case None =>
              if svc.governed(domain, target) && patch.ChangesStatusOf(existing) then (db, Err(WorkflowForbidden))
              else if dryRun then (db, Ok(Patched(existing, patch, existing.updatedAt).(version := existing.version)))
              else (WriteHead(db, id, Patched(existing, patch, now)), Ok(Patched(existing, patch, now)))
  }

  /**
   The checks of one batch row up to the singleton rule; on success, the content type the row
   aims at. The schema service reads the tables `seen`: it has its own connection, which does
   not see what an open transaction has written.
   */
  function Admit(
      db: Db, seen: Db, svc: Services, domain: nat, id: int, patch: Patch, workflow: bool): Result<int, Code> {
    if patch.Empty() then Err(EmptyUpdateBody)
    else match FindItem(db, domain, id)
      case None => Err(ItemNotFound)
      case Some(existing) =>
        var target := patch.contentTypeId.Or(existing.contentTypeId);
        match FindType(db, domain, target)
        case None => Err(TypeNotFound)
        case Some(ty) =>
          match SchemaFailure(seen, svc, domain, ty.schema, patch.data.Or(existing.data))
          case Some(reason) => Err(Invalid(reason))
          case None =>
            if workflow && svc.governed(domain, target) && patch.ChangesStatusOf(existing) then Err(WorkflowForbidden)
            else Ok(target)
  }

  /** The singleton rule of one batch row, against the table and against the claims of earlier rows. */
  function Claim(db: Db, domain: nat, target: int, id: int, reserved: map<int, int>): Result<map<int, int>, Code>
    requires FindType(db, domain, target).Some?
  {
    if !FindType(db, domain, target).value.kind.Singleton? then Ok(reserved)
    else if Occupied(db, domain, target, Some(id)) then Err(SingletonExists)
    else if target in reserved && reserved[target] != id then Err(SingletonExists)
    else Ok(reserved[target := id])
  }

  function CheckUpdate(
      db: Db, seen: Db, svc: Services, domain: nat, id: int, patch: Patch, reserved: map<int, int>, workflow: bool)
    : (r: Result<map<int, int>, Code>)
    ensures r.Ok? ==> FindItem(db, domain, id).Some?
  {
    match Admit(db, seen, svc, domain, id, patch, workflow)
    case Err(code) => Err(code)
    case Ok(target) => Claim(db, domain, target, id, reserved)
  }

  /** Row k of a dry run: checked and reported, nothing written. */
  function DryStep(p: Progress, svc: Services, domain: nat, row: UpdateRow, k: nat): Progress {
    match CheckUpdate(p.db, p.db, svc, domain, row.id, row.patch.DropEmptyData(), p.reserved, true)
    case Err(code) => p.(rows := p.rows + [RowErr(k, code)])
    case Ok(reserved) => Progress(p.db, reserved, p.rows + [RowOk(k, row.id, p.db.items[row.id].version + 1)])
  }

  function UpdateDryAfter(db: Db, svc: Services, domain: nat, rows: seq<UpdateRow>, n: nat): (p: Progress)
    requires n <= |rows|
    ensures p.db == db
  {
    if n == 0 then Progress(db, map[], [])
    else DryStep(UpdateDryAfter(db, svc, domain, rows, n - 1), svc, domain, rows[n - 1], n - 1)
  }

  function UpdateOne(p: Progress, id: int, patch: Patch, reserved: map<int, int>, index: nat, now: int): Progress
    requires id in p.db.items
  {
    Progress(WriteHead(p.db, id, Patched(p.db.items[id], patch, now)), reserved,
             p.rows + [RowOk(index, id, p.db.items[id].version + 1)])
  }

  /** Row k of a partial run: checked, then written or reported. */
  function PartialStep(p: Progress, svc: Services, domain: nat, row: UpdateRow, k: nat, now: int): Progress {
    match CheckUpdate(p.db, p.db, svc, domain, row.id, row.patch.DropEmptyData(), p.reserved, true)
    case Err(code) => p.(rows := p.rows + [RowErr(k, code)])
    case Ok(reserved) => UpdateOne(p, row.id, row.patch.DropEmptyData(), reserved, k, now)
  }

  function UpdatePartialAfter(
      db: Db, svc: Services, domain: nat, rows: seq<UpdateRow>, clock: nat -> int, n: nat): (p: Progress)
    requires n <= |rows|
  {
    if n == 0 then Progress(db, map[], [])
    else
      PartialStep(UpdatePartialAfter(db, svc, domain, rows, clock, n - 1),
                  svc, domain, rows[n - 1], n - 1, clock(n - 1))
  }

  /**
   Row k of an atomic run. Atomic mode neither drops empty data nor looks at workflows, and its
   transaction is open while the schema service reads the tables as they were before.
   */
  function AtomicStep(
      p: Progress, seen: Db, svc: Services, domain: nat, row: UpdateRow, k: nat, now: int): Result<Progress, Abort> {
    match CheckUpdate(p.db, seen, svc, domain, row.id, row.patch, p.reserved, false)
    case Err(code) => Err(Abort(k, code, p.db.nextItemId))
    case Ok(reserved) => Ok(UpdateOne(p, row.id, row.patch, reserved, k, now))
  }

  function UpdateAtomicAfter(db: Db, svc: Services, domain: nat, rows: seq<UpdateRow>, clock: nat -> int, n: nat)
    : (r: Result<Progress, Abort>)
    requires n <= |rows|
  {
    if n == 0 then Ok(Progress(db, map[], [])) else
    match UpdateAtomicAfter(db, svc, domain, rows, clock, n - 1)
    case Err(a) => Err(a)
    case Ok(p) => AtomicStep(p, db, svc, domain, rows[n - 1], n - 1, clock(n - 1))
  }

  function UpdateBatch(
      db: Db, svc: Services, domain: nat, rows: seq<UpdateRow>, atomic: bool, dryRun: bool, clock: nat -> int)
    : (Db, BatchReply)
  {
    if |rows| == 0 then (db, EmptyBatch)
    else if dryRun then (db, Rows(atomic, UpdateDryAfter(db, svc, domain, rows, |rows|).rows))
    else if atomic then
      match UpdateAtomicAfter(db, svc, domain, rows, clock, |rows|)
      case Err(a) => (db, AtomicFailed(a.index, a.code))
      case Ok(p) => (p.db, Rows(true, p.rows))
    else
      var p := UpdatePartialAfter(db, svc, domain, rows, clock, |rows|);
      (p.db, Rows(false, p.rows))
  }

  // ---------------------------------------------------------------- globals

  ghost function GlobalType(db: Db, domain: nat, slug: string): (t: Option<int>)
    ensures t.Some? ==> IsGlobal(db, domain, slug, t.value)
    ensures t.None? ==> forall u :: !IsGlobal(db, domain, slug, u)
  {
    if exists u :: IsGlobal(db, domain, slug, u) then var u :| IsGlobal(db, domain, slug, u); Some(u) else None
  }

  ghost function SingletonItem(db: Db, domain: nat, t: int): (id: Option<int>)
    ensures id.Some? ==> InType(db, domain, t, id.value)
    ensures id.None? ==> forall u :: !InType(db, domain, t, u)
  {
    if exists u :: InType(db, domain, t, u) then var u :| InType(db, domain, t, u); Some(u) else None
  }

  datatype GlobalReply = GlobalReply(typeId: int, itemId: int, data: string, status: string, version: nat)

  ghost function UpdateGlobal(
      db: Db, svc: Services, domain: nat, slug: string, data: string, status: Option<string>, dryRun: bool, now: int)
    : (Db, Result<GlobalReply, Code>)
  {
    match GlobalType(db, domain, slug)
    case None => (db, Err(GlobalNotFound))
    case Some(t) =>
      var existing := SingletonItem(db, domain, t);
      if Occupied(db, domain, t, existing) then (db, Err(SingletonExists))
      else match SchemaFailure(db, svc, domain, db.types[t].schema, data)
        case Some(reason) => (db, Err(Invalid(reason)))
        case None =>
          match existing
          case None =>
            if svc.governed(domain, t) && status.Some? && status.value != "" && status.value != "draft" then
              (db, Err(WorkflowForbidden))
            else
              var target := status.Or("draft");
              if dryRun then (db, Ok(GlobalReply(t, 0, data, target, 1)))
              else (Insert(db, Item(domain, t, data, target, 1, now)),
                  Ok(GlobalReply(t, db.nextItemId, data, target, 1)))
          case Some(id) =>
            var head := db.items[id];
            if svc.governed(domain, t) && status.Some? && status.value != "" && status.value != head.status then
              (db, Err(WorkflowForbidden))
            else
              var target := status.Or(head.status);
              var reply := GlobalReply(t, id, data, target, head.version + 1);
              if dryRun then (db, Ok(reply))
              else
                var next := head.(data := data, status := target, version := head.version + 1, updatedAt := now);
                (WriteHead(db, id, next), Ok(reply))
  }

  // ---------------------------------------------------------------- deleting items

  function DeleteItem(db: Db, domain: nat, id: int, dryRun: bool): (Db, Result<int, Code>) {
    if FindItem(db, domain, id).None? then (db, Err(ItemNotFound))
    else if dryRun then (db, Ok(id))
    else (Remove(db, id), Ok(id))
  }

  datatype DeleteRow = Deleted(index: nat, id: int) | NotDeleted(index: nat, code: Code)

  datatype DeleteReply =
    | EmptyDelete
    | DeleteRows(atomic: bool, rows: seq<DeleteRow>)
    | DeleteFailed(index: nat, code: Code)

  function DeleteRowsAfter(db: Db, domain: nat, ids: seq<int>, dryRun: bool, n: nat): (r: (Db, seq<DeleteRow>))
    requires n <= |ids|
  {
    if n == 0 then (db, []) else
    var (before, rows) := DeleteRowsAfter(db, domain, ids, dryRun, n - 1);
    var (after, reply) := DeleteItem(before, domain, ids[n - 1], dryRun);
    (after, rows + [if reply.Ok? then Deleted(n - 1, ids[n - 1]) else NotDeleted(n - 1, reply.error)])
  }

  function DeleteAtomicAfter(db: Db, domain: nat, ids: seq<int>, n: nat): (r: Result<(Db, seq<DeleteRow>), (nat, Code)>)
    requires n <= |ids|
  {
    if n == 0 then Ok((db, [])) else
    match DeleteAtomicAfter(db, domain, ids, n - 1)
    case Err(e) => Err(e)
    case Ok((before, rows)) =>
      if FindItem(before, domain, ids[n - 1]).None? then Err((n - 1, ItemNotFound))
      else Ok((Remove(before, ids[n - 1]), rows + [Deleted(n - 1, ids[n - 1])]))
  }

  function DeleteBatch(db: Db, domain: nat, ids: seq<int>, atomic: bool, dryRun: bool): (Db, DeleteReply) {
    if |ids| == 0 then (db, EmptyDelete)
    else if dryRun || !atomic then
      var (after, rows) := DeleteRowsAfter(db, domain, ids, dryRun, |ids|);
      (after, DeleteRows(atomic, rows))
    else match DeleteAtomicAfter(db, domain, ids, |ids|)
      case Err((index, code)) => (db, DeleteFailed(index, code))
      case Ok((after, rows)) => (after, DeleteRows(true, rows))
  }

  // ---------------------------------------------------------------- rollback

  /** The history row a rollback restores. */
  ghost function TargetRow(versions: seq<VersionRow>, id: int, version: int): (row: VersionRow)
    requires HasVersion(versions, id, version)
    ensures row in versions && row.itemId == id && row.version == version
  {
    var k :| 0 <= k < |versions| && versions[k].itemId == id && versions[k].version == version;
    versions[k]
  }

  ghost function Rollback(
      db: Db, svc: Services, domain: nat, id: int, version: int, dryRun: bool, now: int): (Db, Result<nat, Code>) {
    match FindItem(db, domain, id)
    case None => (db, Err(ItemNotFound))
    case Some(head) =>
      if !HasVersion(db.versions, id, version) then (db, Err(VersionNotFound)) else
      var target := TargetRow(db.versions, id, version);
      match FindType(db, domain, head.contentTypeId)
      case None => (db, Err(TypeNotFound))
      case Some(ty) =>
        match SchemaFailure(db, svc, domain, ty.schema, target.data)
        case Some(reason) => (db, Err(Invalid(reason)))
        case None =>
          if dryRun then (db, Ok(head.version + 1))
          else
            var next := head.(data := target.data, status := target.status,
                              version := head.version + 1, updatedAt := now);
            (WriteHead(db, id, next), Ok(head.version + 1))
  }
}
