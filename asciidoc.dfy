/**
 * The content-lookup facade over Asciidoctor: each entry point maps its
 * identifying segments to a fixed `.adoc` file under the content root, checks
 * that the file exists, and either fails with a not-found error or loads the
 * file and converts it to HTML. Loading and converting are foreign library
 * calls and are modelled as an opaque Engine; the file system is the set of
 * paths that are present.
 */
module Asciidoc {
  import opened Values
  import opened Paths

  /** Attribute record a caller supplies for template substitution. */
  type Attributes = map<string, Json>

  /** The value of one Asciidoctor processor option. */
  datatype Value =
    | Undefined                           // a key present with the value `undefined`
    | Text(text: string)
    | ExtensionRegistry                   // the registry holding the custom block processors
    | Attrs(attributes: Attributes)

  /** Asciidoctor processor options, keyed by option name. */
  type Options = map<string, Value>

  /** The content root (`ASCIIDOC_DIRECTORY`) and the paths present under it (files or directories). */
  datatype FileSystem = FileSystem(root: string, files: set<string>)

  /**
   * The Asciidoctor library as this facade uses it: `load` parses the file at
   * a full path with the given options, `render` converts a parsed document of
   * the opaque type D to HTML with the given options.
   */
  datatype Engine<!D> = Engine(load: (string, Options) -> D, render: (D, Options) -> string)

  /** Result of a facade call: a value, or a thrown `NotFoundError` with its message. */
  datatype Outcome<T> = Ok(value: T) | NotFound(message: string)

  /** The directory of the facade module (`__dirname`), relative to the project. */
  const ModuleDirectory: string := "src/modules/asciidoc"

  /** The Asciidoctor template directory, `views/_asciidoc` at the project root. */
  const TemplateDirectory: string := Join([ModuleDirectory, "..", "..", "..", "views", "_asciidoc"])

  /** Options every load and convert starts from. */
  const BaseOptions: Options := map[
    "safe" := Text("safe"),
    "backend" := Text("html5"),
    "template_dir" := Text(TemplateDirectory),
    "extension_registry" := ExtensionRegistry
  ]

  /** `{ ...base, ...overrides }`: the override's keys win. */
  function Merge(base: Options, overrides: Options): (r: Options)
    ensures r.Keys == base.Keys + overrides.Keys
    ensures forall k :: k in overrides ==> r[k] == overrides[k]
    ensures forall k :: k in base && k !in overrides ==> r[k] == base[k]
  {
    base + overrides
  }

  /** An omitted override (`options = {}`) leaves the base options as they are. */
  lemma DefaultOptionsAreBase(base: Options)
    ensures Merge(base, map[]) == base
  {
  }

  /** `fileExists`: whether the content root joined with the path is present; never fails. */
  function FileExists(fs: FileSystem, filepath: string): (b: bool)
    ensures b <==> fs.root + [Separator] + filepath in fs.files
  {
    assert Join([fs.root, filepath]) == fs.root + [Separator] + Join([filepath]);
    Join([fs.root, filepath]) in fs.files
  }

  /** `loadFile`: parse the file under the content root with the merged options. */
  function LoadFile<D>(fs: FileSystem, engine: Engine<D>, filepath: string, options: Options): (d: D)
    ensures d == engine.load(fs.root + [Separator] + filepath, Merge(BaseOptions, options))
    ensures options == map[] ==> d == engine.load(fs.root + [Separator] + filepath, BaseOptions)
  {
    assert Join([fs.root, filepath]) == fs.root + [Separator] + Join([filepath]);
    DefaultOptionsAreBase(BaseOptions);
    engine.load(Join([fs.root, filepath]), Merge(BaseOptions, options))
  }

  /** `convert`: render a parsed document with the merged options. */
  function Convert<D>(engine: Engine<D>, document: D, options: Options): (html: string)
    ensures html == engine.render(document, Merge(BaseOptions, options))
    ensures options == map[] ==> html == engine.render(document, BaseOptions)
  {
    DefaultOptionsAreBase(BaseOptions);
    engine.render(document, Merge(BaseOptions, options))
  }

  /** The object literal `{ attributes }`: an absent argument gives the key with `undefined`. */
  function AttributesOverride(attributes: Option<Attributes>): (o: Options)
    ensures o.Keys == {"attributes"}
    ensures o["attributes"].Undefined? <==> attributes.None?
    ensures attributes.Some? ==> o["attributes"] == Attrs(attributes.value)
  {
    map["attributes" := if attributes.Some? then Attrs(attributes.value) else Undefined]
  }

  // The file each entry point consults, relative to the content root.

  function CourseFile(slug: string): string {
    Join(["courses", slug, "course.adoc"])
  }

  function SummaryFile(slug: string): string {
    Join(["courses", slug, "summary.adoc"])
  }

  function ModuleFile(course: string, moduleSlug: string): string {
    Join(["courses", course, "modules", moduleSlug, "module.adoc"])
  }

  function LessonFile(course: string, moduleSlug: string, lesson: string): string {
    Join(["courses", course, "modules", moduleSlug, "lessons", lesson, "lesson.adoc"])
  }

  // The message each entry point throws when its file is missing.

  function CourseMissing(slug: string): string {
    "Course " + slug + " could not be found"
  }

  function SummaryMissing(slug: string): string {
    "Summary for course " + slug + " could not be found"
  }

  function ModuleMissing(course: string, moduleSlug: string): string {
    "Module " + moduleSlug + " could not be found in " + course
  }

  /** The lesson message, which begins with the word "Module" as the source writes it. */
  function LessonMissing(course: string, moduleSlug: string, lesson: string): string {
    "Module " + lesson + " could not be found in " + course + "/" + moduleSlug
  }

  /** `convertCourseOverview`: attributes go to the load only; convert gets the base options. */
  function ConvertCourseOverview<D>(fs: FileSystem, engine: Engine<D>, slug: string, attributes: Option<Attributes>): (r: Outcome<string>)
    ensures r.NotFound? <==> !FileExists(fs, CourseFile(slug))
    ensures r.NotFound? ==> r.message == CourseMissing(slug)
    ensures r.Ok? ==> r.value == engine.render(
                        engine.load(Join([fs.root, CourseFile(slug)]), Merge(BaseOptions, AttributesOverride(attributes))),
                        BaseOptions)
  {
    var folder := Join(["courses", slug]);
    var file := Join([folder, "course.adoc"]);
    JoinThen(["courses", slug], "course.adoc");
    assert ["courses", slug] + ["course.adoc"] == ["courses", slug, "course.adoc"];
    DefaultOptionsAreBase(BaseOptions);
    if !FileExists(fs, file) then NotFound(CourseMissing(slug))
    else Ok(Convert(engine, LoadFile(fs, engine, file, AttributesOverride(attributes)), map[]))
  }

  /** `convertCourseSummary`: as the course overview, over `summary.adoc`. */
  function ConvertCourseSummary<D>(fs: FileSystem, engine: Engine<D>, slug: string, attributes: Option<Attributes>): (r: Outcome<string>)
    ensures r.NotFound? <==> !FileExists(fs, SummaryFile(slug))
    ensures r.NotFound? ==> r.message == SummaryMissing(slug)
    ensures r.Ok? ==> r.value == engine.render(
                        engine.load(Join([fs.root, SummaryFile(slug)]), Merge(BaseOptions, AttributesOverride(attributes))),
                        BaseOptions)
  {
    var folder := Join(["courses", slug]);
    var file := Join([folder, "summary.adoc"]);
    JoinThen(["courses", slug], "summary.adoc");
    assert ["courses", slug] + ["summary.adoc"] == ["courses", slug, "summary.adoc"];
    DefaultOptionsAreBase(BaseOptions);
    if !FileExists(fs, file) then NotFound(SummaryMissing(slug))
    else Ok(Convert(engine, LoadFile(fs, engine, file, AttributesOverride(attributes)), map[]))
  }

  /** `courseSummaryExists`: an existence check only; it never fails. */
  function CourseSummaryExists(fs: FileSystem, slug: string): (b: bool)
    ensures b <==> fs.root + [Separator] + SummaryFile(slug) in fs.files
  {
    var folder := Join(["courses", slug]);
    var file := Join([folder, "summary.adoc"]);
    JoinThen(["courses", slug], "summary.adoc");
    assert ["courses", slug] + ["summary.adoc"] == ["courses", slug, "summary.adoc"];
    FileExists(fs, file)
  }

  /** `convertModuleOverview`: consults `module.adoc`; attributes go to the load only. */
  function ConvertModuleOverview<D>(fs: FileSystem, engine: Engine<D>, course: string, moduleSlug: string, attributes: Option<Attributes>): (r: Outcome<string>)
    ensures r.NotFound? <==> !FileExists(fs, ModuleFile(course, moduleSlug))
    ensures r.NotFound? ==> r.message == ModuleMissing(course, moduleSlug)
    ensures r.Ok? ==> r.value == engine.render(
                        engine.load(Join([fs.root, ModuleFile(course, moduleSlug)]), Merge(BaseOptions, AttributesOverride(attributes))),
                        BaseOptions)
  {
    var folder := Join(["courses", course, "modules", moduleSlug]);
    var file := Join([folder, "module.adoc"]);
    JoinThen(["courses", course, "modules", moduleSlug], "module.adoc");
    assert ["courses", course, "modules", moduleSlug] + ["module.adoc"] == ["courses", course, "modules", moduleSlug, "module.adoc"];
    DefaultOptionsAreBase(BaseOptions);
    if !FileExists(fs, file) then NotFound(ModuleMissing(course, moduleSlug))
    else Ok(Convert(engine, LoadFile(fs, engine, file, AttributesOverride(attributes)), map[]))
  }

  /** `getLessonOverview`: the loaded lesson document, not converted. */
  function GetLessonOverview<D>(fs: FileSystem, engine: Engine<D>, course: string, moduleSlug: string, lesson: string, attributes: Option<Attributes>): (r: Outcome<D>)
    ensures r.NotFound? <==> !FileExists(fs, LessonFile(course, moduleSlug, lesson))
    ensures r.NotFound? ==> r.message == LessonMissing(course, moduleSlug, lesson)
    ensures r.Ok? ==> r.value == engine.load(Join([fs.root, LessonFile(course, moduleSlug, lesson)]),
                                             Merge(BaseOptions, AttributesOverride(attributes)))
  {
    var file := Join(["courses", course, "modules", moduleSlug, "lessons", lesson, "lesson.adoc"]);
    if !FileExists(fs, file) then NotFound(LessonMissing(course, moduleSlug, lesson))
    else Ok(LoadFile(fs, engine, file, AttributesOverride(attributes)))
  }

  /**
   * `convertLessonOverview`: the attributes (default `{}`) go to both the load and
   * the convert, and a not-found error from the lookup is passed on unchanged.
   */
  function ConvertLessonOverview<D>(fs: FileSystem, engine: Engine<D>, course: string, moduleSlug: string, lesson: string, attributes: Option<Attributes>): (r: Outcome<string>)
    ensures r.NotFound? <==> !FileExists(fs, LessonFile(course, moduleSlug, lesson))
    ensures r.NotFound? ==> r.message == LessonMissing(course, moduleSlug, lesson)
    ensures var attrs := if attributes.Some? then attributes.value else map[];
            var options := Merge(BaseOptions, map["attributes" := Attrs(attrs)]);
            r.Ok? ==> r.value == engine.render(engine.load(Join([fs.root, LessonFile(course, moduleSlug, lesson)]), options), options)
  {
    var attrs := if attributes.Some? then attributes.value else map[];
    match GetLessonOverview(fs, engine, course, moduleSlug, lesson, Some(attrs))
    case NotFound(message) => NotFound(message)
    case Ok(document) => Ok(Convert(engine, document, map["attributes" := Attrs(attrs)]))
  }

  // Properties of the facade as a whole.

  /** Every facade load overrides the attributes only: safe mode, backend, templates and registry stay. */
  lemma FacadeOverridesOnlyAttributes(attributes: Option<Attributes>)
    ensures var o := Merge(BaseOptions, AttributesOverride(attributes));
            && o.Keys == {"safe", "backend", "template_dir", "extension_registry", "attributes"}
            && o["safe"] == Text("safe")
            && o["backend"] == Text("html5")
            && o["template_dir"] == Text(TemplateDirectory)
            && o["extension_registry"] == ExtensionRegistry
            && o["attributes"] == (if attributes.Some? then Attrs(attributes.value) else Undefined)
  {
  }

  /** The summary check is false exactly when converting the summary throws its not-found error. */
  lemma SummaryExistsIffFound<D>(fs: FileSystem, engine: Engine<D>, slug: string, attributes: Option<Attributes>)
    ensures !CourseSummaryExists(fs, slug) <==> ConvertCourseSummary(fs, engine, slug, attributes) == NotFound(SummaryMissing(slug))
    ensures CourseSummaryExists(fs, slug) <==> ConvertCourseSummary(fs, engine, slug, attributes).Ok?
  {
  }

  /**
   * When the file is missing nothing is loaded or converted: the outcome is the
   * same whatever the engine and the attributes are.
   */
  lemma AbsentFileNeverLoads<D1, D2>(fs: FileSystem, e1: Engine<D1>, e2: Engine<D2>,
                                     course: string, moduleSlug: string, lesson: string,
                                     a1: Option<Attributes>, a2: Option<Attributes>)
    ensures !FileExists(fs, CourseFile(course)) ==>
              ConvertCourseOverview(fs, e1, course, a1) == ConvertCourseOverview(fs, e2, course, a2)
    ensures !FileExists(fs, SummaryFile(course)) ==>
              ConvertCourseSummary(fs, e1, course, a1) == ConvertCourseSummary(fs, e2, course, a2)
    ensures !FileExists(fs, ModuleFile(course, moduleSlug)) ==>
              ConvertModuleOverview(fs, e1, course, moduleSlug, a1) == ConvertModuleOverview(fs, e2, course, moduleSlug, a2)
    ensures !FileExists(fs, LessonFile(course, moduleSlug, lesson)) ==>
              && GetLessonOverview(fs, e1, course, moduleSlug, lesson, a1).NotFound?
              && GetLessonOverview(fs, e2, course, moduleSlug, lesson, a2).NotFound?
              && GetLessonOverview(fs, e1, course, moduleSlug, lesson, a1).message
                 == GetLessonOverview(fs, e2, course, moduleSlug, lesson, a2).message
    ensures !FileExists(fs, LessonFile(course, moduleSlug, lesson)) ==>
              ConvertLessonOverview(fs, e1, course, moduleSlug, lesson, a1) == ConvertLessonOverview(fs, e2, course, moduleSlug, lesson, a2)
  {
  }

  /**
   * Each entry point consults only its own file: two file systems that agree on
   * that one path give the same outcome.
   */
  lemma ConsultsOnlyOwnFile<D>(fs1: FileSystem, fs2: FileSystem, engine: Engine<D>,
                               course: string, moduleSlug: string, lesson: string, attributes: Option<Attributes>)
    requires fs1.root == fs2.root
    ensures (Join([fs1.root, CourseFile(course)]) in fs1.files <==> Join([fs1.root, CourseFile(course)]) in fs2.files) ==>
              ConvertCourseOverview(fs1, engine, course, attributes) == ConvertCourseOverview(fs2, engine, course, attributes)
    ensures (Join([fs1.root, SummaryFile(course)]) in fs1.files <==> Join([fs1.root, SummaryFile(course)]) in fs2.files) ==>
              && ConvertCourseSummary(fs1, engine, course, attributes) == ConvertCourseSummary(fs2, engine, course, attributes)
              && CourseSummaryExists(fs1, course) == CourseSummaryExists(fs2, course)
    ensures (Join([fs1.root, ModuleFile(course, moduleSlug)]) in fs1.files
             <==> Join([fs1.root, ModuleFile(course, moduleSlug)]) in fs2.files) ==>
              ConvertModuleOverview(fs1, engine, course, moduleSlug, attributes)
              == ConvertModuleOverview(fs2, engine, course, moduleSlug, attributes)
    ensures (Join([fs1.root, LessonFile(course, moduleSlug, lesson)]) in fs1.files
             <==> Join([fs1.root, LessonFile(course, moduleSlug, lesson)]) in fs2.files) ==>
              GetLessonOverview(fs1, engine, course, moduleSlug, lesson, attributes)
              == GetLessonOverview(fs2, engine, course, moduleSlug, lesson, attributes)
    ensures (Join([fs1.root, LessonFile(course, moduleSlug, lesson)]) in fs1.files
             <==> Join([fs1.root, LessonFile(course, moduleSlug, lesson)]) in fs2.files) ==>
              ConvertLessonOverview(fs1, engine, course, moduleSlug, lesson, attributes)
              == ConvertLessonOverview(fs2, engine, course, moduleSlug, lesson, attributes)
  {
  }

  /**
   * Converting a lesson passes on the lookup's not-found error unchanged, and an
   * omitted attribute record behaves as the default `{}`.
   */
  lemma ConvertLessonPropagatesLookup<D>(fs: FileSystem, engine: Engine<D>, course: string, moduleSlug: string,
                                         lesson: string, attributes: Option<Attributes>)
    ensures var lookup := GetLessonOverview(fs, engine, course, moduleSlug, lesson,
                                            Some(if attributes.Some? then attributes.value else map[]));
            && (ConvertLessonOverview(fs, engine, course, moduleSlug, lesson, attributes).NotFound? <==> lookup.NotFound?)
            && (lookup.NotFound? ==>
                  ConvertLessonOverview(fs, engine, course, moduleSlug, lesson, attributes) == NotFound(lookup.message))
    ensures ConvertLessonOverview(fs, engine, course, moduleSlug, lesson, None)
            == ConvertLessonOverview(fs, engine, course, moduleSlug, lesson, Some(map[]))
  {
  }

  /** The four kinds of content never consult the same file, whatever the segments. */
  lemma ContentFilesDistinct(c1: string, c2: string, c3: string, c4: string,
                             m3: string, m4: string, l4: string)
    ensures CourseFile(c1) != SummaryFile(c2)
    ensures CourseFile(c1) != ModuleFile(c3, m3)
    ensures CourseFile(c1) != LessonFile(c4, m4, l4)
    ensures SummaryFile(c2) != ModuleFile(c3, m3)
    ensures SummaryFile(c2) != LessonFile(c4, m4, l4)
    ensures ModuleFile(c3, m3) != LessonFile(c4, m4, l4)
  {
    var course, summary, mod, lesson := CourseFile(c1), SummaryFile(c2), ModuleFile(c3, m3), LessonFile(c4, m4, l4);
    // Each path ends with its own file name; the last eleven characters already differ.
    assert course[|course| - 11..] == "course.adoc";
    assert summary[|summary| - 11..] == "ummary.adoc" by {
      assert summary[|summary| - 12..] == "summary.adoc";
      assert summary[|summary| - 11..] == summary[|summary| - 12..][1..];
    }
    assert mod[|mod| - 11..] == "module.adoc";
    assert lesson[|lesson| - 11..] == "lesson.adoc";
    assert "course.adoc"[0] == 'c' && "ummary.adoc"[0] == 'u' && "module.adoc"[0] == 'm' && "lesson.adoc"[0] == 'l';
  }

  // Distinct identifiers consult distinct files when every identifier is a plain
  // segment, one that `path.join` keeps as it is.

  lemma CourseFileInjective(c1: string, c2: string)
    requires PlainSegment(c1) && PlainSegment(c2)
    ensures CourseFile(c1) == CourseFile(c2) <==> c1 == c2
  {
    assert IsComponent("courses") && IsComponent("course.adoc");
    JoinInjective(["courses", c1, "course.adoc"], ["courses", c2, "course.adoc"]);
  }

  lemma SummaryFileInjective(c1: string, c2: string)
    requires PlainSegment(c1) && PlainSegment(c2)
    ensures SummaryFile(c1) == SummaryFile(c2) <==> c1 == c2
  {
    assert IsComponent("courses") && IsComponent("summary.adoc");
    JoinInjective(["courses", c1, "summary.adoc"], ["courses", c2, "summary.adoc"]);
  }

  lemma ModuleFileInjective(c1: string, m1: string, c2: string, m2: string)
    requires PlainSegment(c1) && PlainSegment(m1) && PlainSegment(c2) && PlainSegment(m2)
    ensures ModuleFile(c1, m1) == ModuleFile(c2, m2) <==> c1 == c2 && m1 == m2
  {
    assert IsComponent("courses") && IsComponent("modules") && IsComponent("module.adoc");
    JoinInjective(["courses", c1, "modules", m1, "module.adoc"], ["courses", c2, "modules", m2, "module.adoc"]);
  }

  lemma LessonFileInjective(c1: string, m1: string, l1: string, c2: string, m2: string, l2: string)
    requires PlainSegment(c1) && PlainSegment(m1) && PlainSegment(l1)
    requires PlainSegment(c2) && PlainSegment(m2) && PlainSegment(l2)
    ensures LessonFile(c1, m1, l1) == LessonFile(c2, m2, l2) <==> c1 == c2 && m1 == m2 && l1 == l2
  {
    assert IsComponent("courses") && IsComponent("modules") && IsComponent("lessons") && IsComponent("lesson.adoc");
    JoinInjective(["courses", c1, "modules", m1, "lessons", l1, "lesson.adoc"],
                  ["courses", c2, "modules", m2, "lessons", l2, "lesson.adoc"]);
  }

  // Properties of the not-found messages.

  /** `part` occurs in `text` starting at position `i`. */
  predicate OccursAt(text: string, part: string, i: nat) {
    i + |part| <= |text| && text[i..i + |part|] == part
  }

  /** `part` occurs somewhere in `text`. */
  ghost predicate Contains(text: string, part: string) {
    exists i: nat :: OccursAt(text, part, i)
  }

  /** The course and summary messages name the slug. */
  lemma CourseMessagesNameSlug(slug: string)
    ensures Contains(CourseMissing(slug), slug)
    ensures Contains(SummaryMissing(slug), slug)
  {
    assert OccursAt(CourseMissing(slug), slug, 7);
    assert OccursAt(SummaryMissing(slug), slug, 19);
  }

  /** The module message names both the module and the course. */
  lemma ModuleMessageNamesSegments(course: string, moduleSlug: string)
    ensures Contains(ModuleMissing(course, moduleSlug), moduleSlug)
    ensures Contains(ModuleMissing(course, moduleSlug), course)
  {
    var m := ModuleMissing(course, moduleSlug);
    assert OccursAt(m, moduleSlug, 7);
    assert OccursAt(m, course, |m| - |course|);
  }

  /** The lesson message names the lesson, the course and the module. */
  lemma LessonMessageNamesSegments(course: string, moduleSlug: string, lesson: string)
    ensures Contains(LessonMissing(course, moduleSlug, lesson), lesson)
    ensures Contains(LessonMissing(course, moduleSlug, lesson), course)
    ensures Contains(LessonMissing(course, moduleSlug, lesson), moduleSlug)
  {
    var l := LessonMissing(course, moduleSlug, lesson);
    var at := 7 + |lesson| + 23;
    assert OccursAt(l, lesson, 7);
    assert OccursAt(l, course, at);
    assert OccursAt(l, moduleSlug, |l| - |moduleSlug|);
  }

  /** The course and summary messages determine the slug they report. */
  lemma MessagesIdentifySlug(a: string, b: string)
    ensures CourseMissing(a) == CourseMissing(b) <==> a == b
    ensures SummaryMissing(a) == SummaryMissing(b) <==> a == b
  {
    if CourseMissing(a) == CourseMissing(b) {
      assert |a| == |b|;
      assert a == CourseMissing(a)[7..7 + |a|];
    }
    if SummaryMissing(a) == SummaryMissing(b) {
      assert |a| == |b|;
      assert a == SummaryMissing(a)[19..19 + |a|];
    }
  }

  /**
   * The lesson message uses the module wording: a missing lesson reads exactly
   * like a missing module named after the lesson in the course "course/module".
   */
  lemma LessonMessageReadsAsModule(course: string, moduleSlug: string, lesson: string)
    ensures LessonMissing(course, moduleSlug, lesson) == ModuleMissing(course + "/" + moduleSlug, lesson)
  {
  }
}
