/** Schema definition: the required-field checks and the `displayName`
    default of `defineSchema` (packages/loompi/src/schema.ts). */
module Schema {
  import opened Values
  import opened Text

  /** The `info` object of a schema config. `defineSchema` writes its
      `displayName` in place, so the caller's object sees the default too. */
  class InfoObject {
    var singularName: string
    var pluralName: string
    var displayName: string
    var description: Option<string>

    constructor (singularName: string, pluralName: string, displayName: string, description: Option<string>)
      ensures this.singularName == singularName && this.pluralName == pluralName
      ensures this.displayName == displayName && this.description == description
    {
      this.singularName := singularName;
      this.pluralName := pluralName;
      this.displayName := displayName;
      this.description := description;
    }
  }

  /** The value of an `info` object at one moment. */
  datatype Info = Info(singularName: string, pluralName: string, displayName: string, description: Option<string>)

  datatype Kind = CollectionType | SingleType

  /** A schema config. A missing string field is the empty string; the table
      is given by its column names, or absent (`undefined`/`null`). The
      `options`, `hooks` and `validation` members are carried unread. */
  datatype SchemaConfig = SchemaConfig(
    kind: Kind,
    collectionName: string,
    tableName: Option<set<string>>,
    info: InfoObject,
    options: Value,
    hooks: Value,
    validation: Value)

  /** The validated definition: the config's members with `_validated` set. */
  datatype SchemaDefinition = SchemaDefinition(
    kind: Kind,
    collectionName: string,
    tableName: Option<set<string>>,
    info: Info,
    options: Value,
    hooks: Value,
    validation: Value,
    validated: bool)

  const ErrorPrefix := "Invalid Schema definition"
  const CollectionNameRequired := ErrorPrefix + ": collectionName is required"
  const TableNameRequired := ErrorPrefix + ": tableName is required"
  const NamesRequired := ErrorPrefix + ": singularName and pluralName are required"

  /** The message of the first failing check, in the order the source runs
      them, or `None` when every required field is present. */
  function SchemaFailure(collectionName: string, hasTable: bool, singularName: string, pluralName: string): (e: Option<string>)
    ensures e == None <==> collectionName != "" && hasTable && singularName != "" && pluralName != ""
    ensures collectionName == "" ==> e == Some(CollectionNameRequired)
    ensures collectionName != "" && !hasTable ==> e == Some(TableNameRequired)
    ensures collectionName != "" && hasTable && (singularName == "" || pluralName == "") ==> e == Some(NamesRequired)
  {
    if collectionName == "" then Some(CollectionNameRequired)
    else if !hasTable then Some(TableNameRequired)
    else if singularName == "" || pluralName == "" then Some(NamesRequired)
    else None
  }

  /** The display name after defaulting: an empty one becomes the singular
      name with its first character upper-cased. */
  function DisplayName(displayName: string, singularName: string): (d: string)
    ensures displayName != "" ==> d == displayName
    ensures displayName == "" ==> |d| == |singularName|
    ensures displayName == "" && |singularName| > 0 ==> d[0] == AsciiUpperChar(singularName[0]) && d[1..] == singularName[1..]
  {
    if displayName == "" then Capitalize(singularName) else displayName
  }

  function SchemaErrorValue(message: string): (e: JsError)
    ensures e.kind == OtherError && e.message == Some(message)
  {
    JsError(OtherError, None, None, Some(message), "Error: " + message)
  }

  /** `defineSchema(config)`. */
  method DefineSchema(config: SchemaConfig) returns (r: Outcome<SchemaDefinition>)
    modifies config.info
    ensures config.info.singularName == old(config.info.singularName)
    ensures config.info.pluralName == old(config.info.pluralName)
    ensures config.info.description == old(config.info.description)
    ensures var failure := SchemaFailure(config.collectionName, config.tableName.Some?,
                                         config.info.singularName, config.info.pluralName);
      && (r.Thrown? <==> failure.Some?)
      && (r.Thrown? ==> r.err == SchemaErrorValue(failure.value) && config.info.displayName == old(config.info.displayName))
    ensures r.Normal? ==>
      && config.info.displayName == DisplayName(old(config.info.displayName), config.info.singularName)
      && r.value == SchemaDefinition(config.kind, config.collectionName, config.tableName,
                                     Info(config.info.singularName, config.info.pluralName,
                                          config.info.displayName, config.info.description),
                                     config.options, config.hooks, config.validation, true)
  {
    var info := config.info;
    var failure := SchemaFailure(config.collectionName, config.tableName.Some?, info.singularName, info.pluralName);
    if failure.Some? {
      return Thrown(SchemaErrorValue(failure.value));
    }
    if info.displayName == "" {
      info.displayName := Capitalize(info.singularName);
    }
    var snapshot := Info(info.singularName, info.pluralName, info.displayName, info.description);
    r := Normal(SchemaDefinition(config.kind, config.collectionName, config.tableName, snapshot,
                                 config.options, config.hooks, config.validation, true));
  }

  /** When several required fields are missing, the collection name is the
      one reported; a missing table is reported before missing names. */
  lemma FirstMissingFieldReported(collectionName: string, hasTable: bool, singularName: string, pluralName: string)
    ensures collectionName == "" ==> SchemaFailure(collectionName, hasTable, singularName, pluralName) == Some(CollectionNameRequired)
    ensures collectionName != "" && !hasTable ==> SchemaFailure(collectionName, hasTable, singularName, pluralName) == Some(TableNameRequired)
  {
  }

  /** Defaulting is idempotent: a defaulted display name is kept as is. */
  lemma {:induction false} DisplayNameIdempotent(displayName: string, singularName: string)
    requires singularName != ""
    ensures DisplayName(DisplayName(displayName, singularName), singularName) == DisplayName(displayName, singularName)
  {
    var d := DisplayName(displayName, singularName);
    assert |d| > 0;
  }

  /** Example: the singular name "user" gets the display name "User". */
  lemma DisplayNameExample()
    ensures DisplayName("", "user") == "User"
  {
    assert Capitalize("user") == ['U'] + "ser";
  }
}
