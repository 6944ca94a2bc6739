/**
 * The fixed tool catalog returned by tools/list: two tool descriptors with
 * their input schemas. It is a constant; nothing changes it at run time.
 */
module Catalog {
  import opened Wrappers
  import opened Json

  const CreateToolName := "create_github_repository"
  const DeleteToolName := "delete_github_repository"

  /** One property of an input schema; `default == None` means the schema declares no default. */
  datatype Param = Param(name: string, kind: string, description: string, default: Option<Value>)

  datatype Tool = Tool(name: string, description: string, params: seq<Param>, required: seq<string>)

  const CreateTool := Tool(
    CreateToolName,
    "Create a new GitHub repository",
    [ Param("name", "string", "Name of the repository to create", None),
      Param("private", "boolean", "Whether the repository should be private", Some(JBool(false))),
      Param("description", "string", "Description of the repository", None),
      Param("auto_init", "boolean", "Initialize repository with README", Some(JBool(true))) ],
    ["name"])

  const DeleteTool := Tool(
    DeleteToolName,
    "Delete a GitHub repository",
    [ Param("name", "string", "Name of the repository to delete", None) ],
    ["name"])

  /** The catalog, in the order tools/list reports it. */
  function Tools(): (ts: seq<Tool>)
    ensures |ts| == 2 && ts[0].name == CreateToolName && ts[1].name == DeleteToolName
    ensures forall k :: 0 <= k < |ts| ==> ts[k].required == ["name"]
  {
    [CreateTool, DeleteTool]
  }

  /** The tool names the catalog advertises. */
  predicate IsKnownTool(name: Value) {
    name == JStr(CreateToolName) || name == JStr(DeleteToolName)
  }

  /** The default a tool's schema declares for one of its properties. */
  function DefaultOf(params: seq<Param>, name: string): Option<Value> {
    if params == [] then None
    else if params[0].name == name then params[0].default
    else DefaultOf(params[1..], name)
  }

  /** A rendered schema property: its type and description, and a "default" exactly when one is declared. */
  predicate DescribesParam(j: Value, p: Param) {
    && j.JObj?
    && "type" in j.fields && j.fields["type"] == JStr(p.kind)
    && "description" in j.fields && j.fields["description"] == JStr(p.description)
    && ("default" in j.fields <==> p.default.Some?)
    && (p.default.Some? ==> j.fields["default"] == p.default.value)
  }

  /** No later parameter reuses the name of parameter k, so its entry is the one a dict keeps. */
  predicate LastNamed(params: seq<Param>, k: int)
    requires 0 <= k < |params|
  {
    forall j :: k < j < |params| ==> params[j].name != params[k].name
  }

  /** A rendered descriptor: name, description, an object schema listing `required` and one entry per parameter. */
  predicate Describes(j: Value, t: Tool) {
    && j.JObj?
    && "name" in j.fields && j.fields["name"] == JStr(t.name)
    && "description" in j.fields && j.fields["description"] == JStr(t.description)
    && "inputSchema" in j.fields && j.fields["inputSchema"].JObj?
    && var schema := j.fields["inputSchema"].fields;
       && "type" in schema && schema["type"] == JStr("object")
       && "required" in schema && schema["required"].JArr?
       && |schema["required"].items| == |t.required|
       && (forall k :: 0 <= k < |t.required| ==> schema["required"].items[k] == JStr(t.required[k]))
       && "properties" in schema && schema["properties"].JObj?
       && var props := schema["properties"].fields;
          && (forall k :: 0 <= k < |t.params| ==> t.params[k].name in props)
          && (forall key :: key in props ==> exists k :: 0 <= k < |t.params| && t.params[k].name == key)
          && (forall k :: 0 <= k < |t.params| && LastNamed(t.params, k) ==>
                props[t.params[k].name] == ParamJson(t.params[k]))
  }

  function ParamJson(p: Param): (j: Value)
    ensures DescribesParam(j, p)
  {
    var base := map["type" := JStr(p.kind), "description" := JStr(p.description)];
    JObj(if p.default.Some? then base["default" := p.default.value] else base)
  }

  /** The "properties" object of a schema, keyed by property name; a later parameter of the same name wins. */
  function PropertiesJson(params: seq<Param>): (m: map<string, Value>)
    ensures forall k :: 0 <= k < |params| ==> params[k].name in m
    ensures forall key :: key in m ==> exists k :: 0 <= k < |params| && params[k].name == key
  {
    if params == [] then map[]
    else PropertiesJson(params[..|params| - 1])[params[|params| - 1].name := ParamJson(params[|params| - 1])]
  }

  /** Each property's entry is the rendering of the last parameter declared under its name. */
  lemma {:induction false} PropertiesLastWins(params: seq<Param>, k: int)
    requires 0 <= k < |params| && LastNamed(params, k)
    ensures params[k].name in PropertiesJson(params)
    ensures PropertiesJson(params)[params[k].name] == ParamJson(params[k])
  {
    var init, last := params[..|params| - 1], params[|params| - 1];
    var before := PropertiesJson(init);
    assert PropertiesJson(params) == before[last.name := ParamJson(last)];
    if k < |init| {
      var name := params[k].name;
      assert init[k] == params[k];
      assert last.name != name;
      assert LastNamed(init, k) by {
        forall j | k < j < |init| ensures init[j].name != init[k].name {
          assert init[j] == params[j];
        }
      }
      PropertiesLastWins(init, k);
      assert before[last.name := ParamJson(last)][name] == before[name];
    }
  }

  function StringsJson(names: seq<string>): (j: Value)
    ensures j.JArr? && |j.items| == |names|
    ensures forall k :: 0 <= k < |names| ==> j.items[k] == JStr(names[k])
  {
    JArr(seq(|names|, k requires 0 <= k < |names| => JStr(names[k])))
  }

  lemma PropertiesAllLastWin(params: seq<Param>)
    ensures forall k :: 0 <= k < |params| && LastNamed(params, k) ==>
      params[k].name in PropertiesJson(params) && PropertiesJson(params)[params[k].name] == ParamJson(params[k])
  {
    forall k | 0 <= k < |params| && LastNamed(params, k)
      ensures params[k].name in PropertiesJson(params) && PropertiesJson(params)[params[k].name] == ParamJson(params[k])
    {
      PropertiesLastWins(params, k);
    }
  }

  /** A descriptor as the dict tools/list puts in its "tools" array. */
  function ToolJson(t: Tool): (j: Value)
    ensures Describes(j, t)
  {
    PropertiesAllLastWin(t.params);
    JObj(map[
      "name" := JStr(t.name),
      "description" := JStr(t.description),
      "inputSchema" := JObj(map[
        "type" := JStr("object"),
        "properties" := JObj(PropertiesJson(t.params)),
        "required" := StringsJson(t.required)])])
  }

  /** A rendered property has no key besides its type, its description and its declared default. */
  lemma ParamJsonKeys(p: Param)
    ensures ParamJson(p).fields.Keys == {"type", "description"} + (if p.default.Some? then {"default"} else {})
  {
  }

  /** A rendered descriptor and its schema have exactly the keys tools/list writes. */
  lemma ToolJsonKeys(t: Tool)
    ensures ToolJson(t).fields.Keys == {"name", "description", "inputSchema"}
    ensures ToolJson(t).fields["inputSchema"].fields.Keys == {"type", "properties", "required"}
  {
  }

  /** The "tools" array of the tools/list result: one descriptor per catalog entry, in catalog order. */
  function CatalogJson(): (j: Value)
    ensures j.JArr? && |j.items| == |Tools()|
    ensures forall k :: 0 <= k < |Tools()| ==> Describes(j.items[k], Tools()[k])
  {
    var ts := Tools();
    JArr(seq(|ts|, k requires 0 <= k < |ts| => ToolJson(ts[k])))
  }

  /**
   * The schemas say what the create tool defaults to: `private` false and
   * `auto_init` true, while `description` and `name` have no default.
   */
  lemma CreateSchemaDefaults()
    ensures DefaultOf(CreateTool.params, "private") == Some(JBool(false))
    ensures DefaultOf(CreateTool.params, "auto_init") == Some(JBool(true))
    ensures DefaultOf(CreateTool.params, "description") == None
    ensures DefaultOf(CreateTool.params, "name") == None
  {
  }

  /**
   * A rendered create descriptor advertises `private` defaulting to false and
   * `auto_init` defaulting to true, and no default for `name` or `description`.
   */
  predicate CreateSchemaRenders(j: Value) {
    && j.JObj? && "inputSchema" in j.fields && j.fields["inputSchema"].JObj?
    && "properties" in j.fields["inputSchema"].fields
    && j.fields["inputSchema"].fields["properties"].JObj?
    && var props := j.fields["inputSchema"].fields["properties"].fields;
       && "private" in props && props["private"].JObj? && "default" in props["private"].fields
       && props["private"].fields["default"] == JBool(false)
       && "auto_init" in props && props["auto_init"].JObj? && "default" in props["auto_init"].fields
       && props["auto_init"].fields["default"] == JBool(true)
       && "name" in props && props["name"].JObj? && "default" !in props["name"].fields
       && "description" in props && props["description"].JObj? && "default" !in props["description"].fields
  }

  /** No two parameters of the create schema share a name. */
  lemma CreateNamesDistinct()
    ensures forall k :: 0 <= k < |CreateTool.params| ==> LastNamed(CreateTool.params, k)
  {
  }

  /** A descriptor of a tool carries, for each uniquely named parameter, that parameter's rendering. */
  lemma DescribedProperty(j: Value, t: Tool, k: int)
    requires Describes(j, t) && 0 <= k < |t.params| && LastNamed(t.params, k)
    ensures var props := j.fields["inputSchema"].fields["properties"].fields;
            t.params[k].name in props && DescribesParam(props[t.params[k].name], t.params[k])
  {
  }

  /** Whatever renders as a create descriptor advertises the create defaults. */
  lemma DescribedCreateDefaults(j: Value)
    requires Describes(j, CreateTool)
    ensures CreateSchemaRenders(j)
  {
    CreateNamesDistinct();
    DescribedProperty(j, CreateTool, 0);
    DescribedProperty(j, CreateTool, 1);
    DescribedProperty(j, CreateTool, 2);
    DescribedProperty(j, CreateTool, 3);
  }

  /** The tools/list rendering of the create tool carries the defaults its schema declares. */
  lemma CreateSchemaRendersDefaults()
    ensures CatalogJson().JArr? && |CatalogJson().items| == 2
    ensures CreateSchemaRenders(CatalogJson().items[0])
  {
    assert Tools()[0] == CreateTool;
    DescribedCreateDefaults(CatalogJson().items[0]);
  }

  /** Each rendered descriptor names its tool and requires exactly "name". */
  lemma CatalogJsonShape(k: nat)
    requires k < |Tools()|
    ensures CatalogJson().JArr? && |CatalogJson().items| == 2
    ensures var t := CatalogJson().items[k];
            t.JObj? && t.fields["name"] == JStr(Tools()[k].name) &&
            t.fields["inputSchema"].JObj? &&
            t.fields["inputSchema"].fields["required"] == JArr([JStr("name")]) &&
            "name" in t.fields["inputSchema"].fields["properties"].fields
  {
    var tool := Tools()[k];
    assert tool.params[0].name == "name";
    var req := StringsJson(tool.required);
    assert req.items == [JStr("name")];
  }
}
