/**
 * The widget shapes the backend stores and the merge rule `update` applies.
 * A widget is `{widgetId, type, data}`; `data` holds the position, the size,
 * the stacking order and a content object tagged by `widgetType`. Because an
 * update spreads a partial content object over the stored one, the stored
 * content is modelled as the bag of every content field any variant has, each
 * one present or absent; the three DTO variants are particular bags.
 */
module WidgetDtos {
  import opened Wrappers

  /** `WidgetType` */
  datatype WidgetType = TechStack | PostIt | GroundRule

  /** A content object: its tag and every variant's own fields, each possibly absent. */
  datatype Content = Content(
    widgetType: WidgetType,
    selectedItems: Option<seq<string>>,
    text: Option<string>,
    backgroundColor: Option<string>,
    fontSize: Option<int>,
    rules: Option<seq<string>>)

  /** `TechStackContentDto` */
  function TechStackContent(selectedItems: seq<string>): (r: Content)
    ensures Conforms(r) && r.widgetType == TechStack
    ensures r.selectedItems == Some(selectedItems)
    ensures r.text.None? && r.backgroundColor.None? && r.fontSize.None? && r.rules.None?
  {
    Content(TechStack, Some(selectedItems), None, None, None, None)
  }

  /** `PostItContentDto` */
  function PostItContent(text: string, backgroundColor: string, fontSize: int): (r: Content)
    ensures Conforms(r) && r.widgetType == PostIt
    ensures r.text == Some(text) && r.backgroundColor == Some(backgroundColor) && r.fontSize == Some(fontSize)
    ensures r.selectedItems.None? && r.rules.None?
  {
    Content(PostIt, None, Some(text), Some(backgroundColor), Some(fontSize), None)
  }

  /** `GroundRuleContentDto`; its `rules` is optional. */
  function GroundRuleContent(rules: Option<seq<string>>): (r: Content)
    ensures Conforms(r) && r.widgetType == GroundRule
    ensures r.rules == rules
    ensures r.selectedItems.None? && r.text.None? && r.backgroundColor.None? && r.fontSize.None?
  {
    Content(GroundRule, None, None, None, None, rules)
  }

  /** The fields the tag's DTO requires are present. */
  predicate Conforms(c: Content) {
    match c.widgetType
    case TechStack => c.selectedItems.Some?
    case PostIt => c.text.Some? && c.backgroundColor.Some? && c.fontSize.Some?
    case GroundRule => true
  }

  /** `WidgetData` */
  datatype WidgetData = WidgetData(x: int, y: int, width: int, height: int, zIndex: int, content: Content)

  /**
   * `CreateWidgetDto`: what is stored and returned. `kind` is the DTO's
   * top-level `type`, kept apart from the content's own `widgetType`.
   */
  datatype Widget = Widget(widgetId: string, kind: WidgetType, data: WidgetData)

  /** One of the partial content DTOs: every field optional, the tag included. */
  datatype ContentPatch = ContentPatch(
    widgetType: Option<WidgetType>,
    selectedItems: Option<seq<string>>,
    text: Option<string>,
    backgroundColor: Option<string>,
    fontSize: Option<int>,
    rules: Option<seq<string>>)

  /** `UpdateWidgetData`: every data field optional, `content` a partial content object. */
  datatype DataPatch = DataPatch(
    x: Option<int>,
    y: Option<int>,
    width: Option<int>,
    height: Option<int>,
    zIndex: Option<int>,
    content: Option<ContentPatch>)

  /** `UpdateWidgetDto` */
  datatype UpdateWidgetDto = UpdateWidgetDto(widgetId: string, data: DataPatch)

  /** `{...old, ...patch}` for one field: a supplied value wins. */
  predicate WonBy<T(==)>(supplied: Option<T>, before: T, after: T) {
    match supplied
    case Some(v) => after == v
    case None => after == before
  }

  /** `{...old, ...patch}` on content objects. */
  function SpreadContent(stored: Content, patch: ContentPatch): (r: Content)
    ensures WonBy(patch.widgetType, stored.widgetType, r.widgetType)
    ensures patch.selectedItems.Some? ==> r.selectedItems == patch.selectedItems
    ensures patch.selectedItems.None? ==> r.selectedItems == stored.selectedItems
    ensures patch.text.Some? ==> r.text == patch.text
    ensures patch.text.None? ==> r.text == stored.text
    ensures patch.backgroundColor.Some? ==> r.backgroundColor == patch.backgroundColor
    ensures patch.backgroundColor.None? ==> r.backgroundColor == stored.backgroundColor
    ensures patch.fontSize.Some? ==> r.fontSize == patch.fontSize
    ensures patch.fontSize.None? ==> r.fontSize == stored.fontSize
    ensures patch.rules.Some? ==> r.rules == patch.rules
    ensures patch.rules.None? ==> r.rules == stored.rules
  {
    Content(
      patch.widgetType.GetOr(stored.widgetType),
      if patch.selectedItems.Some? then patch.selectedItems else stored.selectedItems,
      if patch.text.Some? then patch.text else stored.text,
      if patch.backgroundColor.Some? then patch.backgroundColor else stored.backgroundColor,
      if patch.fontSize.Some? then patch.fontSize else stored.fontSize,
      if patch.rules.Some? then patch.rules else stored.rules)
  }

  /**
   * The widget `update` stores: identity and kind of the old one, data fields
   * supplied by the patch replacing the old ones, and the content spread one
   * level deep when the patch has content, kept as it was otherwise.
   */
  function MergeWidget(existing: Widget, patch: DataPatch): (r: Widget)
    ensures r.widgetId == existing.widgetId && r.kind == existing.kind
    ensures WonBy(patch.x, existing.data.x, r.data.x)
    ensures WonBy(patch.y, existing.data.y, r.data.y)
    ensures WonBy(patch.width, existing.data.width, r.data.width)
    ensures WonBy(patch.height, existing.data.height, r.data.height)
    ensures WonBy(patch.zIndex, existing.data.zIndex, r.data.zIndex)
    ensures patch.content.None? ==> r.data.content == existing.data.content
    ensures patch.content.Some? ==> r.data.content == SpreadContent(existing.data.content, patch.content.value)
  {
    var d := existing.data;
    var content := match patch.content
      case Some(c) => SpreadContent(d.content, c)
      case None => d.content;
    existing.(data := WidgetData(
      patch.x.GetOr(d.x), patch.y.GetOr(d.y), patch.width.GetOr(d.width),
      patch.height.GetOr(d.height), patch.zIndex.GetOr(d.zIndex), content))
  }

  /** A patch that supplies nothing. */
  const EmptyPatch: DataPatch := DataPatch(None, None, None, None, None, None)

  lemma EmptyPatchIsIdentity(w: Widget)
    ensures MergeWidget(w, EmptyPatch) == w
  {
  }

  /** Applying the same patch a second time changes nothing more. */
  lemma MergeIdempotent(w: Widget, patch: DataPatch)
    ensures MergeWidget(MergeWidget(w, patch), patch) == MergeWidget(w, patch)
  {
  }

  /** The content tag changes exactly when the patch supplies a different `widgetType`. */
  lemma TagChangesOnlyIfSupplied(w: Widget, patch: DataPatch)
    ensures MergeWidget(w, patch).data.content.widgetType != w.data.content.widgetType
            <==> patch.content.Some? && patch.content.value.widgetType.Some?
                 && patch.content.value.widgetType.value != w.data.content.widgetType
  {
  }

  /** A field present in the content before a merge is present after it. */
  lemma FieldsNeverDropped(w: Widget, patch: DataPatch)
    ensures var c, c' := w.data.content, MergeWidget(w, patch).data.content;
            (c.selectedItems.Some? ==> c'.selectedItems.Some?) &&
            (c.text.Some? ==> c'.text.Some?) &&
            (c.backgroundColor.Some? ==> c'.backgroundColor.Some?) &&
            (c.fontSize.Some? ==> c'.fontSize.Some?) &&
            (c.rules.Some? ==> c'.rules.Some?)
  {
  }

  /**
   * Content that conforms keeps conforming under a patch that leaves the tag
   * alone: one that omits `widgetType` or repeats the stored one.
   */
  lemma ConformsPreserved(w: Widget, patch: DataPatch)
    requires Conforms(w.data.content)
    requires patch.content.Some? ==> (patch.content.value.widgetType.None? ||
                                      patch.content.value.widgetType == Some(w.data.content.widgetType))
    ensures Conforms(MergeWidget(w, patch).data.content)
  {
  }

  /**
   * Retagging a sticky note as a tech stack without supplying `selectedItems`
   * leaves content that no content DTO describes: the tag says tech stack, the
   * fields are the sticky note's.
   */
  lemma RetagBreaksConformance()
    ensures var w := Widget("w1", PostIt, WidgetData(0, 0, 200, 200, 1, PostItContent("hi", "#fff", 14)));
            var p := DataPatch(None, None, None, None, None, Some(ContentPatch(Some(TechStack), None, None, None, None, None)));
            !Conforms(MergeWidget(w, p).data.content)
  {
  }
}
