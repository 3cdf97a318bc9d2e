/**
 * The administrative back office of backend/app.py: the guards on its routes
 * (deletion refused while dependants exist, unique material-category names,
 * no self-demotion or self-deletion, registration checks, notice creation,
 * category reassignment) and the key/value settings upsert.
 * Every route first refuses a user who is not an admin.
 */
module Admin {
  import opened Wrappers
  import opened Models

  /** What an admin route reports (the flash message it shows). */
  datatype Outcome =
    | Forbidden          // the current user is not an admin: redirected, nothing changes
    | NotFound           // get_or_404 found no row
    | Conflict           // dependants still reference the row
    | SelfTarget         // the admin targeted their own account
    | Duplicate          // a material category with that name exists
    | PasswordMismatch   // password and confirmation differ
    | UsernameTaken      // a user with that username exists
    | EmptyMessage       // a notice without text
    | Done(id: int)      // the change was made (id of the row created or changed)

  /** All membership tables as one value, to state what a route leaves unchanged. */
  datatype Tables = Tables(
    users: map<int, User>,
    categories: map<int, PermissionCategory>,
    courseCategories: map<int, string>,
    courses: map<int, Course>,
    materialCategories: map<int, string>,
    materials: map<int, Material>,
    notices: seq<Notice>)

  /** The categories an `in_` filter over the selected ids returns: the selected ids that exist. */
  function Selected(selected: seq<int>, existing: set<int>): (r: set<int>)
    ensures r <= existing
    ensures forall x :: x in r <==> x in selected && x in existing
  {
    set x | x in selected && x in existing
  }

  /** Some user holds the permission category `id`. */
  predicate HeldByAnyone(users: map<int, User>, id: int) {
    exists u :: u in users && id in users[u].categorias
  }

  /** Some course belongs to course category `id`. */
  predicate HasCourses(courses: map<int, Course>, id: int) {
    exists c :: c in courses && courses[c].categoriaId == id
  }

  /** Some material belongs to material category `id`. */
  predicate HasMaterials(materials: map<int, Material>, id: int) {
    exists m :: m in materials && materials[m].categoriaId == id
  }

  /** Some user already has this username. */
  predicate UsernameInUse(users: map<int, User>, username: string) {
    exists u :: u in users && users[u].username == username
  }

  /** Some material category already has this name. */
  predicate MaterialCategoryExists(materialCategories: map<int, string>, nome: string) {
    exists k :: k in materialCategories && materialCategories[k] == nome
  }

  class Membership {
    var users: map<int, User>
    var categories: map<int, PermissionCategory>
    var courseCategories: map<int, string>
    var courses: map<int, Course>
    var materialCategories: map<int, string>
    var materials: map<int, Material>
    var notices: seq<Notice>
    var nextUserId: int
    var nextMaterialCategoryId: int
    var nextNoticeId: int

    function Snapshot(): Tables
      reads this
    {
      Tables(users, categories, courseCategories, courses, materialCategories, materials, notices)
    }

    /** Auto-increment ids: every existing id is below the next one handed out. */
    ghost predicate Valid()
      reads this
    {
      && (forall u :: u in users ==> u < nextUserId)
      && (forall k :: k in materialCategories ==> k < nextMaterialCategoryId)
      && (forall i :: 0 <= i < |notices| ==> notices[i].id < nextNoticeId)
    }

    constructor ()
      ensures Valid()
      ensures Snapshot() == Tables(map[], map[], map[], map[], map[], map[], [])
    {
      users, categories, courseCategories, courses := map[], map[], map[], map[];
      materialCategories, materials, notices := map[], map[], [];
      nextUserId, nextMaterialCategoryId, nextNoticeId := 1, 1, 1;
    }

    /** excluir_categoria: a course category is deleted only when no course belongs to it. */
    method DeleteCourseCategory(actor: Actor, id: int) returns (o: Outcome)
      requires Valid()
      modifies this
      ensures Valid()
      ensures o == (if !actor.isAdmin then Forbidden
                    else if id !in old(courseCategories) then NotFound
                    else if HasCourses(old(courses), id) then Conflict
                    else Done(id))
      ensures Snapshot() == if o.Done? then old(Snapshot()).(courseCategories := old(courseCategories) - {id})
                            else old(Snapshot())
      ensures nextUserId == old(nextUserId) && nextMaterialCategoryId == old(nextMaterialCategoryId) && nextNoticeId == old(nextNoticeId)
    {
      if !actor.isAdmin { return Forbidden; }
      if id !in courseCategories { return NotFound; }
      if HasCourses(courses, id) { return Conflict; }
      courseCategories := courseCategories - {id};
      o := Done(id);
    }

    /** excluir_categoria_material: a material category is deleted only when no material belongs to it. */
    method DeleteMaterialCategory(actor: Actor, id: int) returns (o: Outcome)
      requires Valid()
      modifies this
      ensures Valid()
      ensures o == (if !actor.isAdmin then Forbidden
                    else if id !in old(materialCategories) then NotFound
                    else if HasMaterials(old(materials), id) then Conflict
                    else Done(id))
      ensures Snapshot() == if o.Done? then old(Snapshot()).(materialCategories := old(materialCategories) - {id})
                            else old(Snapshot())
      ensures nextUserId == old(nextUserId) && nextMaterialCategoryId == old(nextMaterialCategoryId) && nextNoticeId == old(nextNoticeId)
    {
      if !actor.isAdmin { return Forbidden; }
      if id !in materialCategories { return NotFound; }
      if HasMaterials(materials, id) { return Conflict; }
      materialCategories := materialCategories - {id};
      o := Done(id);
    }

    /** excluir_categoria_usuario: a permission category is deleted only when no user holds it.
        Courses, materials and notices gated by it do not block the deletion. */
    method DeletePermissionCategory(actor: Actor, id: int) returns (o: Outcome)
      requires Valid()
      modifies this
      ensures Valid()
      ensures o == (if !actor.isAdmin then Forbidden
                    else if id !in old(categories) then NotFound
                    else if HeldByAnyone(old(users), id) then Conflict
                    else Done(id))
      ensures Snapshot() == if o.Done? then old(Snapshot()).(categories := old(categories) - {id})
                            else old(Snapshot())
      ensures nextUserId == old(nextUserId) && nextMaterialCategoryId == old(nextMaterialCategoryId) && nextNoticeId == old(nextNoticeId)
    {
      if !actor.isAdmin { return Forbidden; }
      if id !in categories { return NotFound; }
      if HeldByAnyone(users, id) { return Conflict; }
      categories := categories - {id};
      o := Done(id);
    }

    /** adicionar_categoria_material: a name already in use is refused. */
    method AddMaterialCategory(actor: Actor, nome: string) returns (o: Outcome)
      requires Valid()
      modifies this
      ensures Valid()
      ensures o == (if !actor.isAdmin then Forbidden
                    else if MaterialCategoryExists(old(materialCategories), nome) then Duplicate
                    else Done(old(nextMaterialCategoryId)))
      ensures o.Done? ==> o.id !in old(materialCategories)
      ensures Snapshot() == if o.Done? then old(Snapshot()).(materialCategories := old(materialCategories)[o.id := nome])
                            else old(Snapshot())
      ensures nextMaterialCategoryId == if o.Done? then old(nextMaterialCategoryId) + 1 else old(nextMaterialCategoryId)
      ensures nextUserId == old(nextUserId) && nextNoticeId == old(nextNoticeId)
    {
      if !actor.isAdmin { return Forbidden; }
      if MaterialCategoryExists(materialCategories, nome) { return Duplicate; }
      var id := nextMaterialCategoryId;
      materialCategories := materialCategories[id := nome];
      nextMaterialCategoryId := nextMaterialCategoryId + 1;
      o := Done(id);
    }

    /** alternar_status_admin: flips another user's admin flag; an admin cannot flip their own. */
    method ToggleAdmin(actor: Actor, id: int) returns (o: Outcome)
      requires Valid()
      modifies this
      ensures Valid()
      ensures o == (if !actor.isAdmin then Forbidden
                    else if id !in old(users) then NotFound
                    else if id == actor.id then SelfTarget
                    else Done(id))
      ensures Snapshot() == if o.Done? then old(Snapshot()).(users := old(users)[id := old(users)[id].(isAdmin := !old(users)[id].isAdmin)])
                            else old(Snapshot())
      ensures nextUserId == old(nextUserId) && nextMaterialCategoryId == old(nextMaterialCategoryId) && nextNoticeId == old(nextNoticeId)
    {
      if !actor.isAdmin { return Forbidden; }
      if id !in users { return NotFound; }
      if id == actor.id { return SelfTarget; }
      users := users[id := users[id].(isAdmin := !users[id].isAdmin)];
      o := Done(id);
    }

    /** excluir_usuario: deletes another user (with their category memberships); never oneself. */
    method DeleteUser(actor: Actor, id: int) returns (o: Outcome)
      requires Valid()
      modifies this
      ensures Valid()
      ensures o == (if !actor.isAdmin then Forbidden
                    else if id !in old(users) then NotFound
                    else if id == actor.id then SelfTarget
                    else Done(id))
      ensures Snapshot() == if o.Done? then old(Snapshot()).(users := old(users) - {id})
                            else old(Snapshot())
      ensures nextUserId == old(nextUserId) && nextMaterialCategoryId == old(nextMaterialCategoryId) && nextNoticeId == old(nextNoticeId)
    {
      if !actor.isAdmin { return Forbidden; }
      if id !in users { return NotFound; }
      if id == actor.id { return SelfTarget; }
      users := users - {id};
      o := Done(id);
    }

    /** gerenciar_usuario (POST): the user's categories become exactly the selected ids that exist. */
    method SetUserCategories(actor: Actor, id: int, selected: seq<int>) returns (o: Outcome)
      requires Valid()
      modifies this
      ensures Valid()
      ensures o == (if !actor.isAdmin then Forbidden
                    else if id !in old(users) then NotFound
                    else Done(id))
      ensures Snapshot() == if o.Done? then old(Snapshot()).(users := old(users)[id := old(users)[id].(categorias := Selected(selected, old(categories).Keys))])
                            else old(Snapshot())
      ensures nextUserId == old(nextUserId) && nextMaterialCategoryId == old(nextMaterialCategoryId) && nextNoticeId == old(nextNoticeId)
    {
      if !actor.isAdmin { return Forbidden; }
      if id !in users { return NotFound; }
      users := users[id := users[id].(categorias := Selected(selected, categories.Keys))];
      o := Done(id);
    }

    /** registrar (POST): the password must match its confirmation (checked first), the username must be
        unused; the new user is not an admin and holds exactly the selected ids that exist. */
    method Register(actor: Actor, username: string, password: string, confirm: string, selected: seq<int>)
      returns (o: Outcome)
      requires Valid()
      modifies this
      ensures Valid()
      ensures o == (if !actor.isAdmin then Forbidden
                    else if password != confirm then PasswordMismatch
                    else if UsernameInUse(old(users), username) then UsernameTaken
                    else Done(old(nextUserId)))
      ensures o.Done? ==> o.id !in old(users)
      ensures Snapshot() == if o.Done? then old(Snapshot()).(users := old(users)[o.id := User(o.id, username, false, Selected(selected, old(categories).Keys))])
                            else old(Snapshot())
      ensures nextUserId == if o.Done? then old(nextUserId) + 1 else old(nextUserId)
      ensures nextMaterialCategoryId == old(nextMaterialCategoryId) && nextNoticeId == old(nextNoticeId)
    {
      if !actor.isAdmin { return Forbidden; }
      if password != confirm { return PasswordMismatch; }
      if UsernameInUse(users, username) { return UsernameTaken; }
      var id := nextUserId;
      users := users[id := User(id, username, false, Selected(selected, categories.Keys))];
      nextUserId := nextUserId + 1;
      o := Done(id);
    }

    /** gerenciar_avisos (POST): an empty message is refused; a missing category makes a notice for everyone.
        The category id is not checked against the table. */
    method CreateNotice(actor: Actor, mensagem: string, categoria: Option<int>, now: int) returns (o: Outcome)
      requires Valid()
      modifies this
      ensures Valid()
      ensures o == (if !actor.isAdmin then Forbidden
                    else if mensagem == "" then EmptyMessage
                    else Done(old(nextNoticeId)))
      ensures Snapshot() == if o.Done? then old(Snapshot()).(notices := old(notices) + [Notice(o.id, mensagem, now, categoria)])
                            else old(Snapshot())
      ensures nextNoticeId == if o.Done? then old(nextNoticeId) + 1 else old(nextNoticeId)
      ensures nextUserId == old(nextUserId) && nextMaterialCategoryId == old(nextMaterialCategoryId)
    {
      if !actor.isAdmin { return Forbidden; }
      if mensagem == "" { return EmptyMessage; }
      var id := nextNoticeId;
      notices := notices + [Notice(id, mensagem, now, categoria)];
      nextNoticeId := nextNoticeId + 1;
      o := Done(id);
    }
  }

  /** The deletion guard looks only at users: a category that gates content but that nobody holds
      can be deleted, leaving the content tagged with an id that no longer exists. */
  method DeletionIgnoresGatedContent() returns (m: Membership, o: Outcome)
    ensures o == Done(3) && 3 !in m.categories && 1 in m.courses && m.courses[1].permissaoId == Some(3)
  {
    m := new Membership();
    m.categories := map[3 := PermissionCategory(3, "Lideranca", 2)];
    m.courseCategories := map[5 := "Formacao"];
    m.courses := map[1 := Course(1, "Curso", "https://youtu.be/abc", 5, Some(3))];
    o := m.DeletePermissionCategory(Actor(9, true), 3);
  }

  // ---------------------------------------------------------------------------
  // Settings: the Configuracao key/value table
  // ---------------------------------------------------------------------------

  /** Configuracao: `chave` is unique, `valor` may be null. */
  datatype ConfigRow = ConfigRow(id: int, chave: string, valor: Option<string>)

  const CanteenNoticeKey: string := "aviso_lanchonete"
  const CanteenStatusKey: string := "lanchonete_status"

  /** Keys are unique across rows (the column's unique constraint). */
  ghost predicate UniqueKeys(rows: seq<ConfigRow>) {
    forall a, b :: 0 <= a < b < |rows| ==> rows[a].chave != rows[b].chave
  }

  /** Position of the first row with key `chave`. */
  function KeyIndex(rows: seq<ConfigRow>, chave: string): (r: Option<nat>)
    ensures r.None? <==> forall i :: 0 <= i < |rows| ==> rows[i].chave != chave
    ensures r.Some? ==> r.value < |rows| && rows[r.value].chave == chave
                        && forall j :: 0 <= j < r.value ==> rows[j].chave != chave
  {
    if rows == [] then None
    else if rows[0].chave == chave then Some(0)
    else
      var r := KeyIndex(rows[1..], chave);
      assert forall i :: 1 <= i < |rows| ==> rows[i] == rows[1..][i - 1];
      if r.Some? then Some(r.value + 1) else None
  }

  /** The stored value under `chave`, if a row for it exists. */
  function Lookup(rows: seq<ConfigRow>, chave: string): Option<Option<string>> {
    var i := KeyIndex(rows, chave);
    if i.Some? then Some(rows[i.value].valor) else None
  }

  /** The rows after an upsert: update the row for `chave` in place, or append a new row. */
  function Upserted(rows: seq<ConfigRow>, nextId: int, chave: string, valor: Option<string>): seq<ConfigRow> {
    var i := KeyIndex(rows, chave);
    if i.Some? then rows[i.value := rows[i.value].(valor := valor)]
    else rows + [ConfigRow(nextId, chave, valor)]
  }

  /** Keys of the rows an upsert leaves: the old keys in place, then `chave` if it was absent. */
  lemma UpsertedKeys(rows: seq<ConfigRow>, nextId: int, chave: string, valor: Option<string>)
    ensures var r := Upserted(rows, nextId, chave, valor);
      && |r| == (if KeyIndex(rows, chave).Some? then |rows| else |rows| + 1)
      && (forall k :: 0 <= k < |rows| ==> r[k].chave == rows[k].chave)
      && (KeyIndex(rows, chave).None? ==> r[|rows|].chave == chave)
  {
  }

  lemma UpsertedSameKey(rows: seq<ConfigRow>, nextId: int, chave: string, valor: Option<string>)
    ensures Lookup(Upserted(rows, nextId, chave, valor), chave) == Some(valor)
  {
    var r := Upserted(rows, nextId, chave, valor);
    UpsertedKeys(rows, nextId, chave, valor);
    var i := KeyIndex(rows, chave);
    var ri := KeyIndex(r, chave);
    if i.Some? {
      assert ri.Some? && ri.value <= i.value;
      assert ri.value == i.value;
    } else {
      assert ri.Some? && ri.value == |rows|;
    }
  }

  lemma UpsertedOtherKey(rows: seq<ConfigRow>, nextId: int, chave: string, valor: Option<string>, other: string)
    requires other != chave
    ensures Lookup(Upserted(rows, nextId, chave, valor), other) == Lookup(rows, other)
  {
    var r := Upserted(rows, nextId, chave, valor);
    UpsertedKeys(rows, nextId, chave, valor);
    var j := KeyIndex(rows, other);
    if j.Some? {
      assert r[j.value] == rows[j.value];
    }
  }

  /** After an upsert the key reads back the new value, every other key reads as before,
      a row is added only when the key was absent, and keys stay unique. */
  lemma UpsertReadsBack(rows: seq<ConfigRow>, nextId: int, chave: string, valor: Option<string>, other: string)
    requires UniqueKeys(rows)
    ensures var r := Upserted(rows, nextId, chave, valor);
      && Lookup(r, chave) == Some(valor)
      && (other != chave ==> Lookup(r, other) == Lookup(rows, other))
      && |r| == (if Lookup(rows, chave).Some? then |rows| else |rows| + 1)
      && UniqueKeys(r)
  {
    UpsertedKeys(rows, nextId, chave, valor);
    UpsertedSameKey(rows, nextId, chave, valor);
    if other != chave {
      UpsertedOtherKey(rows, nextId, chave, valor, other);
    }
  }

  class Settings {
    var rows: seq<ConfigRow>
    var nextId: int

    ghost predicate Valid()
      reads this
    {
      UniqueKeys(rows) && forall i :: 0 <= i < |rows| ==> rows[i].id < nextId
    }

    constructor ()
      ensures Valid() && rows == []
    {
      rows, nextId := [], 1;
    }

    /** The upsert each settings route performs: update the row in place or add it. */
    method Upsert(chave: string, valor: Option<string>)
      requires Valid()
      modifies this
      ensures Valid()
      ensures rows == Upserted(old(rows), old(nextId), chave, valor)
      ensures nextId == if KeyIndex(old(rows), chave).Some? then old(nextId) else old(nextId) + 1
    {
      var i := KeyIndex(rows, chave);
      if i.Some? {
        rows := rows[i.value := rows[i.value].(valor := valor)];
      } else {
        rows := rows + [ConfigRow(nextId, chave, valor)];
        nextId := nextId + 1;
      }
      UpsertReadsBack(old(rows), old(nextId), chave, valor, chave);
    }

    /** configuracoes (POST): store the canteen notice; the form field may be absent. */
    method SetCanteenNotice(actor: Actor, valor: Option<string>) returns (ok: bool)
      requires Valid()
      modifies this
      ensures Valid() && ok == actor.isAdmin
      ensures rows == if ok then Upserted(old(rows), old(nextId), CanteenNoticeKey, valor) else old(rows)
      ensures nextId == if ok && KeyIndex(old(rows), CanteenNoticeKey).None? then old(nextId) + 1 else old(nextId)
    {
      ok := actor.isAdmin;
      if ok { Upsert(CanteenNoticeKey, valor); }
    }

    /** mudar_status_lanchonete: store the canteen's open/closed status. */
    method SetCanteenStatus(actor: Actor, valor: Option<string>) returns (ok: bool)
      requires Valid()
      modifies this
      ensures Valid() && ok == actor.isAdmin
      ensures rows == if ok then Upserted(old(rows), old(nextId), CanteenStatusKey, valor) else old(rows)
      ensures nextId == if ok && KeyIndex(old(rows), CanteenStatusKey).None? then old(nextId) + 1 else old(nextId)
    {
      ok := actor.isAdmin;
      if ok { Upsert(CanteenStatusKey, valor); }
    }

    /** gerenciar_pagina (POST): store a page's content under its own key. */
    method SavePage(actor: Actor, pageKey: string, conteudo: string) returns (ok: bool)
      requires Valid()
      modifies this
      ensures Valid() && ok == actor.isAdmin
      ensures rows == if ok then Upserted(old(rows), old(nextId), pageKey, Some(conteudo)) else old(rows)
      ensures nextId == if ok && KeyIndex(old(rows), pageKey).None? then old(nextId) + 1 else old(nextId)
    {
      ok := actor.isAdmin;
      if ok { Upsert(pageKey, Some(conteudo)); }
    }
  }
}
