/**
 * The membership side of the site's data model (the models section of backend/app.py):
 * permission categories with a hierarchy level, users, and the gated content
 * (courses, digital materials, notices) that may name one required category.
 */
module Models {
  import opened Wrappers

  /** CategoriaUsuario: a permission category; several may share a level. */
  datatype PermissionCategory = PermissionCategory(id: int, nome: string, nivel: int)

  /** Usuario: `categorias` holds the ids of the directly assigned permission categories. */
  datatype User = User(id: int, username: string, isAdmin: bool, categorias: set<int>)

  /** Curso: `categoriaId` names its course category, `permissaoId` its optional required category. */
  datatype Course = Course(id: int, titulo: string, linkVideo: string, categoriaId: int, permissaoId: Option<int>)

  /** MaterialDigital: same gating shape as a course, grouped by material category. */
  datatype Material = Material(id: int, titulo: string, arquivoPdf: string, categoriaId: int, permissaoId: Option<int>)

  /** The category rows a user's relationship list loads: one row per assigned id, and every
      assigned id among them. The dashboard works on these rows (ids, names, levels) rather
      than on the id set stored with the user. */
  predicate AssignedRows(u: User, cats: seq<PermissionCategory>) {
    && (forall i :: 0 <= i < |cats| ==> cats[i].id in u.categorias)
    && (forall id :: id in u.categorias ==> exists i :: 0 <= i < |cats| && cats[i].id == id)
  }

  /** Aviso: a notice with its creation time and optional target category. */
  datatype Notice = Notice(id: int, mensagem: string, criadoEm: int, permissaoId: Option<int>)

  /** The logged-in user as the session layer supplies it to an admin route. */
  datatype Actor = Actor(id: int, isAdmin: bool)
}
