/**
 * The records of the e-learning catalogue: subjects, their courses, the
 * modules of a course, the contents of a module and the four kinds of item a
 * content points to. Modules are ordered within their course and contents
 * within their module by an OrderField (see Fields).
 */
module Models {
  import opened Wrappers
  import opened Strings
  import opened Listing
  import opened Fields

  /** Primary key of a user account. */
  type UserId = nat

  /** A point in time, as a count of some fixed unit. */
  type Timestamp = int

  datatype Subject = Subject(title: string, slug: string)

  datatype Course = Course(owner: UserId, subject: Key, title: string, slug: string,
                           overview: string, created: Timestamp)

  /** `order` is None until the module is saved. */
  datatype Module = Module(course: Key, title: string, description: string, order: Option<nat>)

  /** The models a content may point to. */
  datatype ContentKind = TextKind | VideoKind | ImageKind | FileKind

  /** A module's entry: a typed reference to an item, and its place in the module. */
  datatype Content = Content(parentModule: Key, contentType: ContentKind, objectId: nat, order: Option<nat>)

  /** The fields every item shares. */
  datatype ItemBase = ItemBase(owner: UserId, title: string, created: Timestamp, updated: Timestamp)

  datatype Item =
    | Text(base: ItemBase, content: string)
    | File(base: ItemBase, file: string)
    | Image(base: ItemBase, file: string)
    | Video(base: ItemBase, url: string)

  // ---------------------------------------------------------------- content types

  /** The model names a content's type may name. */
  const AllowedModels: seq<string> := ["text", "video", "image", "file"]

  /** The model name of a content kind. */
  function KindName(k: ContentKind): (name: string)
    ensures name in AllowedModels
  {
    match k
    case TextKind => "text"
    case VideoKind => "video"
    case ImageKind => "image"
    case FileKind => "file"
  }

  /** The content kind a model name selects: only the four allowed names select one. */
  function KindOfModel(name: string): (k: Option<ContentKind>)
    ensures k.Some? <==> name in AllowedModels
    ensures k.Some? ==> KindName(k.value) == name
  {
    if name == "text" then Some(TextKind)
    else if name == "video" then Some(VideoKind)
    else if name == "image" then Some(ImageKind)
    else if name == "file" then Some(FileKind)
    else None
  }

  /** Every kind is selected by its own name, so names and kinds correspond one to one. */
  lemma KindNameRoundTrip(k: ContentKind)
    ensures KindOfModel(KindName(k)) == Some(k)
  {
  }

  /** The content kind of an item: the model it is an instance of. */
  function ItemKind(item: Item): (k: ContentKind)
    ensures (k == TextKind <==> item.Text?) && (k == FileKind <==> item.File?)
    ensures (k == ImageKind <==> item.Image?) && (k == VideoKind <==> item.Video?)
    ensures KindOfModel(KindName(k)).Some?
  {
    match item
    case Text(_, _) => TextKind
    case File(_, _) => FileKind
    case Image(_, _) => ImageKind
    case Video(_, _) => VideoKind
  }

  /**
   * A content may refer to any item and to nothing else: every item's model
   * is allowed, and every allowed model is that of some item.
   */
  lemma ItemKindsAreAllowed(name: string)
    ensures name in AllowedModels <==> exists item :: KindName(ItemKind(item)) == name
  {
    var b := ItemBase(0, "", 0, 0);
    if name in AllowedModels {
      var k := KindOfModel(name).value;
      var item := match k
        case TextKind => Text(b, "")
        case VideoKind => Video(b, "")
        case ImageKind => Image(b, "")
        case FileKind => File(b, "");
      assert KindName(ItemKind(item)) == name;
    }
  }

  // ---------------------------------------------------------------- string forms

  function SubjectStr(s: Subject): (r: string)
    ensures r == s.title
  {
    s.title
  }

  function CourseStr(c: Course): (r: string)
    ensures r == c.title
  {
    c.title
  }

  /** Every kind of item shows its title. */
  function ItemStr(item: Item): (r: string)
    ensures r == item.base.title
  {
    item.base.title
  }

  /** How an optional order is formatted: its decimal digits, or "None" when unset. */
  function OrderText(order: Option<nat>): (r: string)
    ensures order.None? ==> r == "None"
    ensures order.Some? ==> r == NatToString(order.value)
    ensures forall i :: 0 <= i < |r| ==> r[i] != '.'
  {
    if order.Some? then NatToString(order.value) else "None"
  }

  /** Reads back the order and the title from a module's string form. */
  function ParseModuleStr(s: string): Option<(Option<nat>, string)> {
    var i := IndexOfDot(s);
    if i + 2 <= |s| && s[i + 1] == ' ' then
      var head := s[..i];
      if head == "None" then Some((None, s[i + 2..]))
      else if head != [] && AllDigits(head) then Some((Some(ParseDigits(head)), s[i + 2..]))
      else None
    else None
  }

  /** The first dot of `p + "." + rest` is the one after `p` when `p` has none. */
  lemma FirstDotAfter(p: string, rest: string)
    requires forall i :: 0 <= i < |p| ==> p[i] != '.'
    ensures IndexOfDot(p + "." + rest) == |p|
  {
    var s := p + "." + rest;
    assert s[|p|] == '.';
    assert forall j :: 0 <= j < |p| ==> s[j] == p[j];
  }

  /**
   * A module shows as its order (or "None" when it has none), a dot, a space
   * and its title; the order and the title can be read back from it.
   */
  function ModuleStr(m: Module): (r: string)
    ensures r == OrderText(m.order) + ". " + m.title
    ensures ParseModuleStr(r) == Some((m.order, m.title))
  {
    var p := OrderText(m.order);
    var s := p + ". " + m.title;
    assert s == p + "." + (" " + m.title);
    FirstDotAfter(p, " " + m.title);
    assert s[..|p|] == p;
    assert s[|p| + 2..] == m.title;
    if m.order.Some? then
      ParseNatToString(m.order.value);
      assert p[0] != 'N';
      s
    else s
  }

  /** A module of order 7 shows as "7. t", one of order 10 as "10. t", and one without an order as "None. t". */
  lemma ModuleStrExamples()
    ensures ModuleStr(Module(1, "t", "", Some(7))) == "7. t"
    ensures ModuleStr(Module(1, "t", "", Some(10))) == "10. t"
    ensures ModuleStr(Module(1, "t", "", None)) == "None. t"
  {
  }

  // ---------------------------------------------------------------- scoped orders

  /** The stored rows of a model whose order is scoped by the one relation `scope`. */
  function ScopedRows(scope: FieldName, entries: seq<(Key, nat)>): (rows: seq<Row>)
    ensures |rows| == |entries|
    ensures forall i :: 0 <= i < |entries| ==> rows[i] == Row(map[scope := entries[i].0], entries[i].1)
  {
    if entries == [] then []
    else [Row(map[scope := entries[0].0], entries[0].1)] + ScopedRows(scope, entries[1..])
  }

  /**
   * The order an OrderField scoped by `scope` computes for a new row whose
   * relation holds `key`, given the (key, order) pairs of the stored rows:
   * above every order of the key, and 0 or one more than one of them.
   */
  function ScopedNext(scope: FieldName, entries: seq<(Key, nat)>, key: Key): (r: nat)
    ensures forall i :: 0 <= i < |entries| && entries[i].0 == key ==> entries[i].1 < r
    ensures r == 0 || exists i :: 0 <= i < |entries| && entries[i].0 == key && entries[i].1 + 1 == r
  {
    var rows := ScopedRows(scope, entries);
    var refs := map[scope := key];
    var v := AutoOrder(Some([scope]), {scope}, refs, rows);
    assert forall i :: 0 <= i < |rows| ==> (Sibling(rows[i], [scope], refs) <==> entries[i].0 == key);
    assert forall i :: 0 <= i < |rows| ==> rows[i] in rows;
    v.value
  }

  /** Every stored module has an order: a saved row always holds one. */
  predicate ModulesOrdered(stored: seq<Module>) {
    forall m :: m in stored ==> m.order.Some?
  }

  predicate ContentsOrdered(stored: seq<Content>) {
    forall c :: c in stored ==> c.order.Some?
  }

  function ModuleEntries(stored: seq<Module>): (e: seq<(Key, nat)>)
    requires ModulesOrdered(stored)
    ensures |e| == |stored| && forall i :: 0 <= i < |stored| ==> e[i] == (stored[i].course, stored[i].order.value)
  {
    if stored == [] then []
    else [(stored[0].course, stored[0].order.value)] + ModuleEntries(stored[1..])
  }

  function ContentEntries(stored: seq<Content>): (e: seq<(Key, nat)>)
    requires ContentsOrdered(stored)
    ensures |e| == |stored| && forall i :: 0 <= i < |stored| ==> e[i] == (stored[i].parentModule, stored[i].order.value)
  {
    if stored == [] then []
    else [(stored[0].parentModule, stored[0].order.value)] + ContentEntries(stored[1..])
  }

  /**
   * The order a new module of `course` gets when saved without one: above the
   * order of every stored module of that course, and 0 when there is none,
   * else one more than the order of one of them (so the largest plus 1).
   */
  function NextModuleOrder(stored: seq<Module>, course: Key): (r: nat)
    requires ModulesOrdered(stored)
    ensures forall m :: m in stored && m.course == course ==> m.order.value < r
    ensures r == 0 || exists m :: m in stored && m.course == course && m.order.value + 1 == r
  {
    var e := ModuleEntries(stored);
    var r := ScopedNext("course", e, course);
    assert forall m :: m in stored && m.course == course ==> m.order.value < r by {
      forall m | m in stored && m.course == course ensures m.order.value < r {
        var i :| 0 <= i < |stored| && stored[i] == m;
      }
    }
    if r > 0 then
      var i :| 0 <= i < |e| && e[i].0 == course && e[i].1 + 1 == r;
      assert stored[i] in stored;
      r
    else r
  }

  /**
   * The order a new content of `module` gets when saved without one: above the
   * order of every stored content of that module, and 0 when there is none,
   * else one more than the order of one of them.
   */
  function NextContentOrder(stored: seq<Content>, moduleKey: Key): (r: nat)
    requires ContentsOrdered(stored)
    ensures forall c :: c in stored && c.parentModule == moduleKey ==> c.order.value < r
    ensures r == 0 || exists c :: c in stored && c.parentModule == moduleKey && c.order.value + 1 == r
  {
    var e := ContentEntries(stored);
    var r := ScopedNext("module", e, moduleKey);
    assert forall c :: c in stored && c.parentModule == moduleKey ==> c.order.value < r by {
      forall c | c in stored && c.parentModule == moduleKey ensures c.order.value < r {
        var i :| 0 <= i < |stored| && stored[i] == c;
      }
    }
    if r > 0 then
      var i :| 0 <= i < |e| && e[i].0 == moduleKey && e[i].1 + 1 == r;
      assert stored[i] in stored;
      r
    else r
  }

  /** A module as it is stored: an order it had is kept, otherwise the next order of its course. */
  function SaveModule(stored: seq<Module>, m: Module): (r: Module)
    requires ModulesOrdered(stored)
    ensures r.order.Some? && r == m.(order := r.order)
    ensures m.order.Some? ==> r == m
    ensures m.order.None? ==> (forall s :: s in stored && s.course == m.course ==> s.order.value < r.order.value)
                              && (r.order.value == 0 || exists s :: s in stored && s.course == m.course
                                                                    && s.order.value + 1 == r.order.value)
  {
    if m.order.Some? then m else m.(order := Some(NextModuleOrder(stored, m.course)))
  }

  /** A content as it is stored: an order it had is kept, otherwise the next order of its module. */
  function SaveContent(stored: seq<Content>, c: Content): (r: Content)
    requires ContentsOrdered(stored)
    ensures r.order.Some? && r == c.(order := r.order)
    ensures c.order.Some? ==> r == c
    ensures c.order.None? ==> (forall s :: s in stored && s.parentModule == c.parentModule ==> s.order.value < r.order.value)
                              && (r.order.value == 0 || exists s :: s in stored && s.parentModule == c.parentModule
                                                                    && s.order.value + 1 == r.order.value)
  {
    if c.order.Some? then c else c.(order := Some(NextContentOrder(stored, c.parentModule)))
  }

  /** A module's automatic order depends only on the stored modules of its own course. */
  lemma ModuleOrderOnlySameCourse(stored1: seq<Module>, stored2: seq<Module>, course: Key)
    requires ModulesOrdered(stored1) && ModulesOrdered(stored2)
    requires forall m :: (m in stored1 && m.course == course) <==> (m in stored2 && m.course == course)
    ensures NextModuleOrder(stored1, course) == NextModuleOrder(stored2, course)
  {
    var r1 := NextModuleOrder(stored1, course);
    var r2 := NextModuleOrder(stored2, course);
    if r1 > 0 {
      var m :| m in stored1 && m.course == course && m.order.value + 1 == r1;
      assert m in stored2;
    }
    if r2 > 0 {
      var m :| m in stored2 && m.course == course && m.order.value + 1 == r2;
      assert m in stored1;
    }
  }

  /** A content's automatic order depends only on the stored contents of its own module. */
  lemma ContentOrderOnlySameModule(stored1: seq<Content>, stored2: seq<Content>, moduleKey: Key)
    requires ContentsOrdered(stored1) && ContentsOrdered(stored2)
    requires forall c :: (c in stored1 && c.parentModule == moduleKey) <==> (c in stored2 && c.parentModule == moduleKey)
    ensures NextContentOrder(stored1, moduleKey) == NextContentOrder(stored2, moduleKey)
  {
    var r1 := NextContentOrder(stored1, moduleKey);
    var r2 := NextContentOrder(stored2, moduleKey);
    if r1 > 0 {
      var c :| c in stored1 && c.parentModule == moduleKey && c.order.value + 1 == r1;
      assert c in stored2;
    }
    if r2 > 0 {
      var c :| c in stored2 && c.parentModule == moduleKey && c.order.value + 1 == r2;
      assert c in stored1;
    }
  }

  // ---------------------------------------------------------------- default listing orders

  /** Ascending order; an unset order (which no stored row has) comes first. */
  predicate OrderLe(a: Option<nat>, b: Option<nat>) {
    a.None? || (b.Some? && a.value <= b.value)
  }

  predicate ModuleBefore(a: Module, b: Module) {
    OrderLe(a.order, b.order)
  }

  predicate ContentBefore(a: Content, b: Content) {
    OrderLe(a.order, b.order)
  }

  /** Newest first. */
  predicate CourseBefore(a: Course, b: Course) {
    a.created >= b.created
  }

  predicate SubjectBefore(a: Subject, b: Subject) {
    StrLe(a.title, b.title)
  }

  lemma ModuleBeforePreorder()
    ensures TotalPreorder(ModuleBefore)
  {
  }

  lemma ContentBeforePreorder()
    ensures TotalPreorder(ContentBefore)
  {
  }

  lemma CourseBeforePreorder()
    ensures TotalPreorder(CourseBefore)
  {
  }

  lemma SubjectBeforePreorder()
    ensures TotalPreorder(SubjectBefore)
  {
    forall a: Subject, b: Subject ensures SubjectBefore(a, b) || SubjectBefore(b, a) {
      StrLeTotal(a.title, b.title);
    }
    forall a: Subject, b: Subject, c: Subject | SubjectBefore(a, b) && SubjectBefore(b, c)
      ensures SubjectBefore(a, c)
    {
      StrLeTransitive(a.title, b.title, c.title);
    }
  }

  /** Modules in listing order: the same modules, by ascending order. */
  function ListModules(ms: seq<Module>): (r: seq<Module>)
    ensures multiset(r) == multiset(ms)
    ensures forall i, j :: 0 <= i < j < |r| ==> OrderLe(r[i].order, r[j].order)
  {
    ModuleBeforePreorder();
    SortBySorted(ms, ModuleBefore);
    SortBy(ms, ModuleBefore)
  }

  /** Contents in listing order: the same contents, by ascending order. */
  function ListContents(cs: seq<Content>): (r: seq<Content>)
    ensures multiset(r) == multiset(cs)
    ensures forall i, j :: 0 <= i < j < |r| ==> OrderLe(r[i].order, r[j].order)
  {
    ContentBeforePreorder();
    SortBySorted(cs, ContentBefore);
    SortBy(cs, ContentBefore)
  }

  /** Courses in listing order: the same courses, newest first. */
  function ListCourses(cs: seq<Course>): (r: seq<Course>)
    ensures multiset(r) == multiset(cs)
    ensures forall i, j :: 0 <= i < j < |r| ==> r[i].created >= r[j].created
  {
    CourseBeforePreorder();
    SortBySorted(cs, CourseBefore);
    SortBy(cs, CourseBefore)
  }

  /** Subjects in listing order: the same subjects, by title. */
  function ListSubjects(ss: seq<Subject>): (r: seq<Subject>)
    ensures multiset(r) == multiset(ss)
    ensures forall i, j :: 0 <= i < j < |r| ==> StrLe(r[i].title, r[j].title)
  {
    SubjectBeforePreorder();
    SortBySorted(ss, SubjectBefore);
    SortBy(ss, SubjectBefore)
  }
}
