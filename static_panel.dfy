/**
 * The `StaticPanel` value object: an immutable record of a titled, grouped
 * content panel. `title`, `icon`, `group`, `content` and `priority` are
 * mandatory; `width` defaults to 12 (a twelve-column grid) and `kind` to HTML.
 * The builder of the record is modelled by `Build`, which takes every attribute
 * as an optional input and either yields a fully initialised panel or fails,
 * naming the mandatory attributes that were not supplied.
 */
module StaticPanel {
  import opened Wrappers

  /** How the panel's content is rendered. */
  datatype ContentKind = HTML | MARKDOWN

  /** The width a panel gets when none is supplied. */
  const DefaultWidth: int := 12

  /** The content kind a panel gets when none is supplied. */
  const DefaultKind: ContentKind := HTML

  /** A constructed panel. Being a datatype, it has accessors and no mutators. */
  datatype StaticPanel = StaticPanel(
    id: Option<int>,
    title: string,
    icon: string,
    group: string,
    content: string,
    priority: int,
    width: int,
    kind: ContentKind)

  /** What a caller (or the JSON reader) supplies; every attribute may be absent. */
  datatype PanelInput = PanelInput(
    id: Option<int>,
    title: Option<string>,
    icon: Option<string>,
    group: Option<string>,
    content: Option<string>,
    priority: Option<int>,
    width: Option<int>,
    kind: Option<ContentKind>)

  /** The mandatory attributes, in declaration order. */
  const Mandatory: seq<string> := ["title", "icon", "group", "content", "priority"]

  /** True iff the input supplies the mandatory attribute `name`. */
  predicate Supplied(input: PanelInput, name: string)
  {
    match name
    case "title" => input.title.Some?
    case "icon" => input.icon.Some?
    case "group" => input.group.Some?
    case "content" => input.content.Some?
    case "priority" => input.priority.Some?
    case _ => true
  }

  /** The mandatory attributes the input leaves out, in declaration order. */
  function Missing(input: PanelInput): (names: seq<string>)
    ensures forall n :: n in names <==> n in Mandatory && !Supplied(input, n)
    ensures names == [] <==> (input.title.Some? && input.icon.Some? && input.group.Some?
                              && input.content.Some? && input.priority.Some?)
  {
    (if input.title.None? then ["title"] else [])
    + (if input.icon.None? then ["icon"] else [])
    + (if input.group.None? then ["group"] else [])
    + (if input.content.None? then ["content"] else [])
    + (if input.priority.None? then ["priority"] else [])
  }

  /** Takes the supplied value when there is one and the default otherwise. */
  function OrDefault<T>(supplied: Option<T>, default: T): (v: T)
    ensures supplied.Some? ==> v == supplied.value
    ensures supplied.None? ==> v == default
  {
    match supplied
    case Some(x) => x
    case None => default
  }

  /**
   * Builds a panel. It fails, naming exactly the missing mandatory attributes,
   * when any of them is absent; otherwise every accessor returns what was
   * supplied, and `width` and `kind` fall back to 12 and HTML.
   */
  function Build(input: PanelInput): (r: Result<StaticPanel, seq<string>>)
    ensures r.Failure? <==> Missing(input) != []
    ensures r.Failure? ==> r.error == Missing(input)
    ensures r.Success? ==>
      && Some(r.value.title) == input.title
      && Some(r.value.icon) == input.icon
      && Some(r.value.group) == input.group
      && Some(r.value.content) == input.content
      && Some(r.value.priority) == input.priority
      && r.value.id == input.id
      && (input.width.None? ==> r.value.width == 12)
      && (input.width.Some? ==> r.value.width == input.width.value)
      && (input.kind.None? ==> r.value.kind == HTML)
      && (input.kind.Some? ==> r.value.kind == input.kind.value)
  {
    var missing := Missing(input);
    if missing != [] then
      Failure(missing)
    else
      Success(StaticPanel(
        input.id,
        input.title.value,
        input.icon.value,
        input.group.value,
        input.content.value,
        input.priority.value,
        OrDefault(input.width, DefaultWidth),
        OrDefault(input.kind, DefaultKind)))
  }

  /** The input that supplies every attribute of an existing panel (a copy, or its JSON form). */
  function ToInput(p: StaticPanel): (input: PanelInput)
    ensures Missing(input) == []
  {
    PanelInput(p.id, Some(p.title), Some(p.icon), Some(p.group), Some(p.content),
               Some(p.priority), Some(p.width), Some(p.kind))
  }

  /** Writing a panel out and building it back yields the same panel. */
  lemma BuildToInputRoundTrip(p: StaticPanel)
    ensures Build(ToInput(p)) == Success(p)
  {
  }

  /** Building is deterministic in the defaulted attributes: omitting one equals supplying its default. */
  lemma OmittedEqualsDefault(input: PanelInput)
    ensures Build(input.(width := None)) == Build(input.(width := Some(12)))
    ensures Build(input.(kind := None)) == Build(input.(kind := Some(HTML)))
  {
  }

  /** Leaving out any one mandatory attribute makes construction fail and name it. */
  lemma MandatoryAttributeRequired(input: PanelInput, name: string)
    requires name in Mandatory && !Supplied(input, name)
    ensures Build(input).Failure? && name in Build(input).error
  {
  }
}
