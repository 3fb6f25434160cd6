/**
  * `NotionClient.formatExpenseProperties` and `NotionClient.getPropertyOptions`
  * (notion-client.js): the page properties sent to Notion for one expense record, and the option
  * names of a select or multi-select column of the database schema.
  */
module NotionClient {
  import opened Wrappers
  import opened ExpenseLines

  /** `{ text: { content } }`, one piece of a title. */
  datatype RichText = RichText(content: string)

  /** `{ name }`, one option of a select or multi-select. */
  datatype SelectOption = SelectOption(name: string)

  /** The property values the builder produces, one per Notion property type it uses. */
  datatype PropertyValue =
    | DateValue(start: string)                       // `{ date: { start } }`
    | NumberValue(number: int)                       // `{ number }`, in hundredths
    | TitleValue(title: seq<RichText>)               // `{ title: [ { text: { content } } ] }`
    | SelectValue(select: SelectOption)              // `{ select: { name } }`
    | MultiSelectValue(multiSelect: seq<SelectOption>) // `{ multi_select: [ { name }, ... ] }`

  /** The six property names the builder may set. */
  const PropertyNames: set<string> := {"Date", "Amount", "Title", "Tag", "Mode", "Type"}

  /** JavaScript truthiness of an optional text: present and not empty. */
  predicate Truthy(s: Option<string>) {
    s.Some? && s.value != ""
  }

  /** `modes.map(mode => ({ name: mode }))` */
  function ModeOptions(modes: seq<string>): (options: seq<SelectOption>)
    ensures |options| == |modes|
    ensures forall i :: 0 <= i < |modes| ==> options[i].name == modes[i]
  {
    seq(|modes|, i requires 0 <= i < |modes| => SelectOption(modes[i]))
  }

  /**
    * `formatExpenseProperties(expense)`: starting from an empty object, each property is set
    * exactly when its field passes the source's guard, from that field alone.
    */
  method FormatExpenseProperties(expense: Expense) returns (properties: map<string, PropertyValue>)
    ensures properties.Keys <= PropertyNames
    ensures "Date" in properties <==> Truthy(expense.date)
    ensures "Date" in properties ==> properties["Date"] == DateValue(expense.date.value)
    ensures "Amount" in properties <==> expense.amount.Some?
    ensures "Amount" in properties ==> properties["Amount"] == NumberValue(expense.amount.value)
    ensures "Title" in properties <==> expense.title != ""
    ensures "Title" in properties ==> properties["Title"] == TitleValue([RichText(expense.title)])
    ensures "Tag" in properties <==> Truthy(expense.tag)
    ensures "Tag" in properties ==> properties["Tag"] == SelectValue(SelectOption(expense.tag.value))
    ensures "Mode" in properties <==> |expense.modes| > 0
    ensures "Mode" in properties ==> properties["Mode"].MultiSelectValue?
    ensures "Mode" in properties ==>
              && |properties["Mode"].multiSelect| == |expense.modes|
              && forall i :: 0 <= i < |expense.modes| ==> properties["Mode"].multiSelect[i].name == expense.modes[i]
    ensures "Type" in properties <==> expense.kind != ""
    ensures "Type" in properties ==> properties["Type"] == SelectValue(SelectOption(expense.kind))
  {
    properties := map[];
    if Truthy(expense.date) {
      properties := properties["Date" := DateValue(expense.date.value)];
    }
    if expense.amount.Some? {
      properties := properties["Amount" := NumberValue(expense.amount.value)];
    }
    if expense.title != "" {
      properties := properties["Title" := TitleValue([RichText(expense.title)])];
    }
    if Truthy(expense.tag) {
      properties := properties["Tag" := SelectValue(SelectOption(expense.tag.value))];
    }
    if |expense.modes| > 0 {
      properties := properties["Mode" := MultiSelectValue(ModeOptions(expense.modes))];
    }
    if expense.kind != "" {
      properties := properties["Type" := SelectValue(SelectOption(expense.kind))];
    }
  }

  /** `{ options }` of a select or multi-select column; `options` may be missing. */
  datatype SelectConfig = SelectConfig(options: Option<seq<SelectOption>>)

  /** One column of the database schema: its `type`, and its `select` / `multi_select` part if any. */
  datatype PropertySchema = PropertySchema(
    kind: string,
    select: Option<SelectConfig>,
    multiSelect: Option<SelectConfig>)

  /** `config?.options?.map(opt => opt.name) || []`: the names, or none when a part is missing. */
  function OptionNames(config: Option<SelectConfig>): (names: seq<string>)
    ensures config.None? || config.value.options.None? ==> names == []
    ensures config.Some? && config.value.options.Some? ==>
              && |names| == |config.value.options.value|
              && forall i :: 0 <= i < |names| ==> names[i] == config.value.options.value[i].name
  {
    match config
    case None => []
    case Some(SelectConfig(None)) => []
    case Some(SelectConfig(Some(options))) =>
      seq(|options|, i requires 0 <= i < |options| => options[i].name)
  }

  /**
    * `getPropertyOptions(property)`: the option names of a `select` or `multi_select` column,
    * read from the part of the same name, and `None` (`null`) for any other type.
    */
  function GetPropertyOptions(property: PropertySchema): (r: Option<seq<string>>)
    ensures r.Some? <==> property.kind == "select" || property.kind == "multi_select"
    ensures property.kind == "select" ==> r == Some(OptionNames(property.select))
    ensures property.kind == "multi_select" ==> r == Some(OptionNames(property.multiSelect))
  {
    if property.kind == "select" then Some(OptionNames(property.select))
    else if property.kind == "multi_select" then Some(OptionNames(property.multiSelect))
    else None
  }

  /** A select column's names depend only on its `select` part, a multi-select's only on `multi_select`. */
  lemma OptionsReadOwnPart(property: PropertySchema, other: Option<SelectConfig>)
    ensures property.kind == "select" ==>
              GetPropertyOptions(property.(multiSelect := other)) == GetPropertyOptions(property)
    ensures property.kind == "multi_select" ==>
              GetPropertyOptions(property.(select := other)) == GetPropertyOptions(property)
  {
  }
}
