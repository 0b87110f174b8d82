# Content lookup and verified-email check

This project models two small pieces of a server-rendered course platform.

- **The content facade** in `src/modules/asciidoc/index.ts`. Each entry point turns a course slug, a module slug and a lesson slug into a fixed `.adoc` file under the content root (`ASCIIDOC_DIRECTORY`). It checks that the file exists. If the file is missing, it throws a `NotFoundError` with a fixed message. If it exists, it loads the file with Asciidoctor and converts it to HTML. Every load and every convert merges the caller's options over one fixed set of base options; keys from the caller win.
- **The verified-email check** in `src/modules/jwt.ts`. `isVerified` decodes a token and is true exactly when the claim `email_verified` is strictly `=== true`.

Modules:

- `Values` (`values.dfy`): the JSON values that claims and attribute records hold, `Option`, and JavaScript truthiness, used as the reference the strict check is compared against.
- `Paths` (`paths.dfy`): `path.join` as concatenation of segments with `/`. `Split` is its inverse on segments that hold no `/`.
- `Asciidoc` (`asciidoc.dfy`): the file system as a content root plus the set of present paths, the library as an opaque `Engine` (`load` and `render` are function values over an opaque document type `D`), the base options, the merge, `loadFile`, `convert`, and the six facade functions. `CourseSummaryExists` returns a boolean; each of the other five returns `Ok(html)`, `Ok(document)` or `NotFound(message)`.
- `Jwt` (`jwt.dfy`): the library decoder as a function parameter that throws, or returns `null`, a string or a claims object; `Decode` and `IsVerified`. `IsVerified` returns `Ok(b)`, `Thrown(DecodeError)` or `Thrown(TypeError)`.

Behaviour of the code that the model keeps as it is:

- A failed decode is not turned into false. An exception from `jwt.decode` propagates, and when `jwt.decode` returns `null`, reading `claims.email_verified` throws a `TypeError`.
- Only `convertLessonOverview` passes the attributes to the convert. The course, summary and module converters pass them only to the load; their convert gets the base options.
- The lesson not-found message begins with the word "Module". `LessonMessageReadsAsModule` proves that this message is exactly the module message for the course `<course>/<module>`.
- No segment is validated, so no directory-traversal safety is claimed.

## Model

| member | source | states |
|---|---|---|
| `Asciidoc.Merge` | src/modules/asciidoc/index.ts:36-49 | merged options have the keys of both maps; every override key maps to its override value; every base key not overridden keeps its base value |
| `Asciidoc.DefaultOptionsAreBase` | src/modules/asciidoc/index.ts:44-49 | with the default empty override `{}`, the merged options are exactly the base options |
| `Asciidoc.FacadeOverridesOnlyAttributes` | src/modules/asciidoc/index.ts:20-25 | a facade load's options are the base options plus `attributes` alone: safe mode `safe`, backend `html5`, the template directory and the extension registry are never overridden; `attributes` is the caller's record, or `undefined` when it was omitted |
| `Asciidoc.AttributesOverride` | src/modules/asciidoc/index.ts:61 | the literal `{ attributes }` has exactly the key `attributes`; its value is `undefined` exactly when the argument was omitted, else the caller's record |
| `Asciidoc.LoadFile` | src/modules/asciidoc/index.ts:31-42 | the library loads content root + `/` + path with the caller's options merged over the base options; with the default `{}` it gets the base options alone |
| `Asciidoc.Convert` | src/modules/asciidoc/index.ts:44-50 | the library renders the document with the caller's options merged over the base options; with the default `{}` it gets the base options alone |
| `Asciidoc.FileExists` | src/modules/asciidoc/index.ts:27-29 | true iff content root + `/` + path is a present file; total, so it never raises |
| `Asciidoc.ConvertCourseOverview` | src/modules/asciidoc/index.ts:52-64 | `NotFound` iff `courses/<slug>/course.adoc` is absent, with message `Course <slug> could not be found`; otherwise the render of that file loaded with `{attributes}` merged over the base options, rendered with the base options alone |
| `Asciidoc.ConvertCourseSummary` | src/modules/asciidoc/index.ts:66-77 | `NotFound` iff `courses/<slug>/summary.adoc` is absent, with message `Summary for course <slug> could not be found`; otherwise load with `{attributes}`, convert with the base options |
| `Asciidoc.CourseSummaryExists` | src/modules/asciidoc/index.ts:79-84 | true iff content root + `/` + `courses/<slug>/summary.adoc` is present; total, never an error |
| `Asciidoc.SummaryExistsIffFound` | src/modules/asciidoc/index.ts:66-84 | `courseSummaryExists` is false exactly when `convertCourseSummary` yields its not-found error, and true exactly when it succeeds |
| `Asciidoc.ConvertModuleOverview` | src/modules/asciidoc/index.ts:86-97 | `NotFound` iff `courses/<c>/modules/<m>/module.adoc` is absent, with message `Module <m> could not be found in <c>`; otherwise load with `{attributes}`, convert with the base options |
| `Asciidoc.GetLessonOverview` | src/modules/asciidoc/index.ts:99-107 | `NotFound` iff `courses/<c>/modules/<m>/lessons/<l>/lesson.adoc` is absent, with message `Module <l> could not be found in <c>/<m>`; otherwise the loaded document, not converted |
| `Asciidoc.ConvertLessonOverview` | src/modules/asciidoc/index.ts:109-113 | same not-found condition and message as the lesson lookup; otherwise the same merged options (attributes, default `{}`) go to both the load and the convert |
| `Asciidoc.ConvertLessonPropagatesLookup` | src/modules/asciidoc/index.ts:109-112 | the lesson conversion fails exactly when the lookup fails, with the lookup's message unchanged; an omitted attribute record behaves as `{}` |
| `Asciidoc.AbsentFileNeverLoads` | src/modules/asciidoc/index.ts:52-113 | for a missing file, every facade's outcome is the same for any two engines and any attributes: neither load nor render is consulted |
| `Asciidoc.ConsultsOnlyOwnFile` | src/modules/asciidoc/index.ts:52-113 | the outcome of each of the six entry points (the lesson lookup included) depends on the file system only through the presence of its own file |
| `Asciidoc.ContentFilesDistinct` | src/modules/asciidoc/index.ts:53-100 | course, summary, module and lesson files never coincide, whatever the segments |
| `Asciidoc.CourseFileInjective` | src/modules/asciidoc/index.ts:53-55 | for plain segments (no `/`, not empty, not `.` or `..`), two slugs consult the same course file iff they are equal |
| `Asciidoc.SummaryFileInjective` | src/modules/asciidoc/index.ts:67-68 | for plain segments, two slugs consult the same summary file iff they are equal |
| `Asciidoc.ModuleFileInjective` | src/modules/asciidoc/index.ts:87-88 | for plain segments, two (course, module) pairs consult the same module file iff they are equal |
| `Asciidoc.LessonFileInjective` | src/modules/asciidoc/index.ts:100 | for plain segments, two (course, module, lesson) triples consult the same lesson file iff they are equal |
| `Asciidoc.CourseMessagesNameSlug` | src/modules/asciidoc/index.ts:58-71 | the course and summary messages contain the slug |
| `Asciidoc.ModuleMessageNamesSegments` | src/modules/asciidoc/index.ts:91 | the module message contains the module slug and the course slug |
| `Asciidoc.LessonMessageNamesSegments` | src/modules/asciidoc/index.ts:103 | the lesson message contains the lesson, course and module slugs |
| `Asciidoc.MessagesIdentifySlug` | src/modules/asciidoc/index.ts:58-71 | two course messages, or two summary messages, are equal iff their slugs are |
| `Asciidoc.LessonMessageReadsAsModule` | src/modules/asciidoc/index.ts:103 | the lesson message equals the module message for module `<l>` in course `<c>/<m>` |
| `Paths.Join` | src/modules/asciidoc/index.ts:53-55 | a join starts with its first segment and ends with its last |
| `Paths.JoinAppend` | src/modules/asciidoc/index.ts:67-68 | joining a folder and then a file name equals joining all segments at once |
| `Paths.JoinThen` | src/modules/asciidoc/index.ts:87-88 | joining a joined folder with one more segment extends it by `/` and that segment |
| `Paths.SplitJoin` | src/modules/asciidoc/index.ts:28 | splitting a join of `/`-free segments gives back the segments |
| `Paths.JoinInjective` | src/modules/asciidoc/index.ts:28 | for `/`-free segments, two joins are equal iff the segment lists are |
| `Jwt.Decode` | src/modules/jwt.ts:3-5 | the library's payload is returned unchanged; no field is added or removed |
| `Jwt.EmailVerifiedClaim` | src/modules/jwt.ts:10 | the claim is present iff the payload is an object holding `email_verified`, and then it is that value |
| `Jwt.IsVerified` | src/modules/jwt.ts:7-11 | raises the decoder's exception iff the decoder throws; throws a `TypeError` iff the decoder returned `null`; returns true iff the payload is an object whose `email_verified` is the boolean `true` |
| `Jwt.NotStrictlyTrueIsUnverified` | src/modules/jwt.ts:10 | any `email_verified` value other than the boolean `true`, or none, gives false |
| `Jwt.TruthyLookalikesRejected` | src/modules/jwt.ts:10 | the string `"true"`, the number `1` and an object are truthy, yet give false |
| `Jwt.MissingOrFalseIsUnverified` | src/modules/jwt.ts:10 | a missing claim, `email_verified: false`, or a string payload give false without throwing |
| `Jwt.StrictNotTruthiness` | src/modules/jwt.ts:10 | verified implies a truthy claim, and the converse fails for the string `"true"` |
| `Jwt.DependsOnlyOnEmailVerified` | src/modules/jwt.ts:8-10 | two object payloads that agree on whether `email_verified` is present and on its value give the same result, whatever other claims differ, are added or are removed |
| `Jwt.DecodeFailurePropagates` | src/modules/jwt.ts:7-11 | a decoder exception, or a `null` result, makes `isVerified` throw rather than return false |
| `Values.StrictlyTrueIsTruthy` | src/modules/jwt.ts:10 | `=== true` holds exactly for the boolean `true`, and implies truthiness |

## Left out

- Asciidoctor parsing and rendering: `asciidoctor()`, `Extensions.create()` and `document.convert` are foreign library calls. They appear only as the opaque `load` and `render` of an `Engine`, and both are total. An I/O or parse error after the existence check is not modelled.
- The block processors (`inputBlockProcessor`, `browserBlockProcessor`) and `./converter`: their sources are not part of this model. The registry is the single value `ExtensionRegistry`.
- `TemplateConverter.clearCache()` on every load: library-internal, process-wide mutable state. Its only effect of interest is a race between concurrent requests.
- `fs.existsSync` I/O: the file system is a content root plus a set of present paths, files and directories alike, as `existsSync` reports both. `ASCIIDOC_DIRECTORY` (from `constants`, not part of this model) is the `root` field.
- `async`/Promise plumbing: every facade is a synchronous function, and a rejected promise is the `NotFound` outcome.
- `path.join` normalisation of `.`, `..`, empty and absolute segments: joins are plain concatenation with `/`. The template directory is therefore kept as the unnormalised join of `__dirname` (written as `src/modules/asciidoc`, its place in the project) with `../../../views/_asciidoc`.
- The internals of `jsonwebtoken.decode`: a parameter that throws, or returns `null`, a string, or a claims object. Which tokens take which case is not modelled. Signature checking is not done by `decode`, so none is modelled.
- JSON numbers are integers; floating point and `NaN` are not modelled.
- `src/app.ts` and `src/middleware/locals.ts`: route wiring and request-scoped constants, with no logic to state.
