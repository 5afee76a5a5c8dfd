/** Activity categories, shared by all users, and the ten built-in ones. */
module CategoryEntity {
  import opened Common

  datatype Category = Category(
    id: Id,
    name: string,
    description: Option<string>,
    color: string,
    icon: Option<string>,
    isDefault: bool)

  /** A category as listed in the defaults table, before it has an id. */
  datatype CategoryData = CategoryData(
    name: string,
    description: Option<string>,
    color: string,
    icon: Option<string>,
    isDefault: bool)

  /** The colour shown for a category that cannot be found. */
  const UNKNOWN_CATEGORY_COLOR: string := "#6B7280"

  /** `DEFAULT_CATEGORIES`. */
  const DEFAULT_CATEGORIES: seq<CategoryData> := [
    CategoryData("Trabajo", Some("Actividades laborales"), "#3B82F6", Some("briefcase"), true),
    CategoryData("Ejercicio", Some("Actividad física y deporte"), "#10B981", Some("dumbbell"), true),
    CategoryData("Familia", Some("Tiempo con familia"), "#F59E0B", Some("users"), true),
    CategoryData("Estudio", Some("Aprendizaje y formación"), "#8B5CF6", Some("book"), true),
    CategoryData("Ocio", Some("Entretenimiento y relajación"), "#EC4899", Some("gamepad"), true),
    CategoryData("Social", Some("Actividades sociales"), "#06B6D4", Some("chat"), true),
    CategoryData("Salud", Some("Cuidado de la salud"), "#EF4444", Some("heart"), true),
    CategoryData("Hogar", Some("Tareas del hogar"), "#84CC16", Some("home"), true),
    CategoryData("Proyectos", Some("Proyectos personales"), "#F97316", Some("rocket"), true),
    CategoryData("Otro", Some("Otras actividades"), "#6B7280", Some("dots"), true)
  ]

  /** A stored category built from table data and an id. */
  function WithId(data: CategoryData, id: Id): (c: Category)
    ensures c.id == id && c.name == data.name && c.isDefault == data.isDefault
  {
    Category(id, data.name, data.description, data.color, data.icon, data.isDefault)
  }

  /** The table has ten entries, all marked default, with pairwise distinct names; the last
      one, "Otro", has the colour used for unknown categories. */
  lemma DefaultCategoriesTable()
    ensures |DEFAULT_CATEGORIES| == 10
    ensures forall k :: 0 <= k < |DEFAULT_CATEGORIES| ==> DEFAULT_CATEGORIES[k].isDefault
    ensures forall i, j :: 0 <= i < j < |DEFAULT_CATEGORIES| ==>
      DEFAULT_CATEGORIES[i].name != DEFAULT_CATEGORIES[j].name
    ensures DEFAULT_CATEGORIES[9].name == "Otro" && DEFAULT_CATEGORIES[9].color == UNKNOWN_CATEGORY_COLOR
  {
    // the first two letters of the ten names already tell them apart
    var heads := seq(10, k requires 0 <= k < 10 => (DEFAULT_CATEGORIES[k].name[0], DEFAULT_CATEGORIES[k].name[1]));
    assert heads == [('T', 'r'), ('E', 'j'), ('F', 'a'), ('E', 's'), ('O', 'c'),
                     ('S', 'o'), ('S', 'a'), ('H', 'o'), ('P', 'r'), ('O', 't')];
    assert forall i, j :: 0 <= i < j < 10 ==> heads[i] != heads[j];
  }
}
