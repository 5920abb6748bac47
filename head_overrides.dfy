/** The pure part of the head plugin: the override object computed for one
    registered head descriptor under the current shared title template, the
    title that survives the merge with the descriptor, and how registrations
    capture the shared title template. */
module Head {
  import opened Template

  datatype Option<+T> = None | Some(value: T)

  /** Whether an object has a key at all. A key can be present and hold
      `undefined`, which is Present(None) for an optional value. */
  datatype Key<+T> = Absent | Present(value: T)

  /** A title template is a string holding `%s` placeholders or a function of
      the title. */
  datatype TitleTemplate = Str(s: string) | Fn(f: string -> string)

  /** The head descriptor a component registers. Absent and `undefined`
      optional strings are both None. */
  datatype Descriptor = Descriptor(
    title: Option<string>,
    titleTemplate: Key<Option<TitleTemplate>>,
    charset: Option<string>,
    viewport: Option<string>)

  /** One meta tag: its attributes by name. */
  type MetaEntry = map<string, string>

  /** The override object: an optional title and the override meta list. */
  datatype Overrides = Overrides(title: Option<string>, meta: seq<MetaEntry>)

  /** A head object as handed to the head manager: the override object, and
      the title that the merge of the overrides with the descriptor keeps. */
  datatype HeadObject = HeadObject(overrides: Overrides, title: Option<string>)

  /** JavaScript truthiness of an optional string: defined and not empty. */
  predicate Truthy(o: Option<string>)
  {
    o.Some? && o.value != ""
  }

  /** JavaScript truthiness of the shared template: a function is always
      truthy, a string template only when it is not empty. */
  predicate TemplateSet(tpl: Option<TitleTemplate>)
  {
    tpl.Some? && (tpl.value.Fn? || tpl.value.s != "")
  }

  function CharsetEntry(charset: string): MetaEntry
  {
    map["key" := "charset", "charset" := charset]
  }

  function ViewportEntry(viewport: string): MetaEntry
  {
    map["name" := "viewport", "content" := viewport]
  }

  predicate IsCharsetEntry(e: MetaEntry)
  {
    "key" in e && e["key"] == "charset"
  }

  predicate IsViewportEntry(e: MetaEntry)
  {
    "name" in e && e["name"] == "viewport"
  }

  /** The derived title: present exactly when a template is set and the raw
      title is non-empty; a function template is applied to the raw title, a
      string template has every `%s` replaced by it (the pieces between the
      placeholders joined with the title, so the length grows by
      |title| - 2 per placeholder). */
  function DeriveTitle(tpl: Option<TitleTemplate>, title: Option<string>): (r: Option<string>)
    ensures r.Some? <==> TemplateSet(tpl) && Truthy(title)
    ensures r.Some? && tpl.value.Fn? ==> r.value == tpl.value.f(title.value)
    ensures r.Some? && tpl.value.Str? ==>
      r.value == Join(Split(tpl.value.s), title.value) &&
      |r.value| == |tpl.value.s| + Occurrences(tpl.value.s) * (|title.value| - 2)
  {
    if TemplateSet(tpl) && Truthy(title) then
      match tpl.value
      case Fn(f) => Some(f(title.value))
      case Str(s) =>
        ReplaceAllIsSplitJoin(s, title.value);
        ReplaceAllLength(s, title.value);
        Some(ReplaceAll(s, title.value))
    else None
  }

  /** The override meta list: at most one charset entry, then at most one
      viewport entry, each present exactly when the descriptor's value is
      non-empty and carrying that value. */
  function OverrideMeta(d: Descriptor): (m: seq<MetaEntry>)
    ensures |m| <= 2
    ensures forall i :: 0 <= i < |m| ==> IsCharsetEntry(m[i]) != IsViewportEntry(m[i])
    ensures (exists i :: 0 <= i < |m| && IsCharsetEntry(m[i])) <==> Truthy(d.charset)
    ensures (exists i :: 0 <= i < |m| && IsViewportEntry(m[i])) <==> Truthy(d.viewport)
    ensures forall i :: 0 <= i < |m| && IsCharsetEntry(m[i]) ==>
      i == 0 && m[i] == CharsetEntry(d.charset.value)
    ensures forall i :: 0 <= i < |m| && IsViewportEntry(m[i]) ==>
      i == |m| - 1 && m[i] == ViewportEntry(d.viewport.value)
  {
    var m := (if Truthy(d.charset) then [CharsetEntry(d.charset.value)] else []) +
             (if Truthy(d.viewport) then [ViewportEntry(d.viewport.value)] else []);
    assert Truthy(d.charset) ==> IsCharsetEntry(m[0]);
    assert Truthy(d.viewport) ==> IsViewportEntry(m[|m| - 1]);
    m
  }

  /** The override object built for one descriptor under the current shared template. */
  function DeriveOverrides(d: Descriptor, tpl: Option<TitleTemplate>): (o: Overrides)
    ensures o.title.Some? <==> TemplateSet(tpl) && Truthy(d.title)
    ensures |o.meta| <= 2
  {
    Overrides(DeriveTitle(tpl, d.title), OverrideMeta(d))
  }

  /** The title of the merged head object: fields present in the overrides
      take precedence over the descriptor's own, so with no template set, or
      an empty or absent raw title, the raw title comes through unchanged. */
  function ResolvedTitle(d: Descriptor, tpl: Option<TitleTemplate>): (r: Option<string>)
    ensures !TemplateSet(tpl) || !Truthy(d.title) ==> r == d.title
    ensures TemplateSet(tpl) && Truthy(d.title) ==> r == DeriveOverrides(d, tpl).title
  {
    var o := DeriveOverrides(d, tpl);
    if o.title.Some? then o.title else d.title
  }

  /** The shared template after one registration: a descriptor that has the
      `titleTemplate` key overwrites it, even with `undefined`; one without the
      key leaves it as it was. */
  function Capture(tpl: Option<TitleTemplate>, d: Descriptor): Option<TitleTemplate>
  {
    match d.titleTemplate
    case Present(t) => t
    case Absent => tpl
  }

  /** The shared template after a sequence of registrations, in order. */
  function CaptureAll(tpl: Option<TitleTemplate>, ds: seq<Descriptor>): Option<TitleTemplate>
    decreases |ds|
  {
    if ds == [] then tpl else Capture(CaptureAll(tpl, ds[..|ds| - 1]), ds[|ds| - 1])
  }

  /** The last registration that declares a template decides it. */
  lemma {:induction false} LastDeclarationWins(tpl: Option<TitleTemplate>, ds: seq<Descriptor>, i: nat)
    requires i < |ds| && ds[i].titleTemplate.Present?
    requires forall j :: i < j < |ds| ==> ds[j].titleTemplate.Absent?
    ensures CaptureAll(tpl, ds) == ds[i].titleTemplate.value
    decreases |ds|
  {
    if i < |ds| - 1 {
      LastDeclarationWins(tpl, ds[..|ds| - 1], i);
    }
  }

  /** Without any declaring registration the template is what it was before. */
  lemma {:induction false} NoDeclarationKeepsTemplate(tpl: Option<TitleTemplate>, ds: seq<Descriptor>)
    requires forall j :: 0 <= j < |ds| ==> ds[j].titleTemplate.Absent?
    ensures CaptureAll(tpl, ds) == tpl
    decreases |ds|
  {
    if ds != [] {
      NoDeclarationKeepsTemplate(tpl, ds[..|ds| - 1]);
    }
  }

  /** Registering a descriptor with the key set to `undefined` clears a
      template set earlier, so later derived titles are absent again. */
  lemma {:induction false} UndefinedTemplateClears(ds: seq<Descriptor>, d: Descriptor, e: Descriptor)
    requires d.titleTemplate == Present(None)
    ensures DeriveOverrides(e, CaptureAll(None, ds + [d])).title == None
  {
  }

  /** The override object of a page `{title: "Home", titleTemplate: "%s - Site"}`. */
  lemma SiteOverridesExample()
    ensures DeriveOverrides(Descriptor(Some("Home"), Present(Some(Str("%s - Site"))), None, None),
                            Some(Str("%s - Site")))
            == Overrides(Some("Home - Site"), [])
  {
    SiteTitleExample();
  }

  /** A function template is applied to the raw title. */
  lemma FunctionTemplateExample()
    ensures DeriveTitle(Some(Fn(Exclaim)), Some("home")) == Some("home!")
  {
    assert Exclaim("home") == "home!";
  }

  /** A function template for FunctionTemplateExample. */
  function Exclaim(t: string): string
  {
    t + "!"
  }
}
