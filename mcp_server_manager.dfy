/**
 * MCPServerManager: the registry of tools the chat backend offers. Tools are
 * kept in a `Map` from a group key to that group's list of tool descriptors;
 * at present one group, `mock`, with two tools, is installed. Calls to a tool
 * are dispatched on its name alone.
 */
module McpServerManager {
  import opened Wrappers
  import opened Json
  import JsMap

  /** A tool descriptor: its owning server, its name, what it does, and the shape of its arguments. */
  datatype Tool = Tool(server: string, name: string, description: string, inputSchema: JsValue)

  /** The schema of one string-valued argument: `{type: 'string'}`. */
  function StringArgument(name: string): Field {
    Field(name, JObj([Field("type", JStr("string"))]))
  }

  /** An object schema with the given argument properties. */
  function ObjectSchema(properties: seq<Field>): JsValue {
    JObj([Field("type", JStr("object")), Field("properties", JObj(properties))])
  }

  /** The two tools `initializeAllServers` installs, in this order. */
  function MockTools(): (ts: seq<Tool>)
    ensures |ts| == 2
    ensures ts[0].server == "memory" && ts[0].name == "store_memory"
    ensures ts[1].server == "web_search" && ts[1].name == "search_web"
  {
    [ Tool("memory", "store_memory", "Store information in memory",
           ObjectSchema([StringArgument("key"), StringArgument("value")])),
      Tool("web_search", "search_web", "Search the web for information",
           ObjectSchema([StringArgument("query")])) ]
  }

  /** The group key the mock tools are stored under. */
  const MockGroup: string := "mock"

  /** All the groups' tools, group after group, each group in its own order. */
  function Flatten(groups: seq<seq<Tool>>): seq<Tool> {
    if groups == [] then [] else Flatten(groups[..|groups| - 1]) + groups[|groups| - 1]
  }

  /** The number of tools over all groups. */
  function TotalCount(groups: seq<seq<Tool>>): nat {
    if groups == [] then 0 else TotalCount(groups[..|groups| - 1]) + |groups[|groups| - 1]|
  }

  lemma {:induction false} FlattenLength(groups: seq<seq<Tool>>)
    ensures |Flatten(groups)| == TotalCount(groups)
  {
    if groups != [] {
      FlattenLength(groups[..|groups| - 1]);
    }
  }

  lemma {:induction false} FlattenConcat(a: seq<seq<Tool>>, b: seq<seq<Tool>>)
    ensures Flatten(a + b) == Flatten(a) + Flatten(b)
    decreases |b|
  {
    if b == [] {
      assert a + b == a;
    } else {
      var ab, init, last := a + b, b[..|b| - 1], b[|b| - 1];
      assert ab[..|ab| - 1] == a + init && ab[|ab| - 1] == last;
      FlattenConcat(a, init);
      calc {
        Flatten(ab);
        Flatten(a + init) + last;
        (Flatten(a) + Flatten(init)) + last;
        Flatten(a) + (Flatten(init) + last);
        Flatten(a) + Flatten(b);
      }
    }
  }

  /** A tool is listed exactly when some group holds it. */
  lemma {:induction false} FlattenMembership(groups: seq<seq<Tool>>, t: Tool)
    ensures t in Flatten(groups) <==> exists i :: 0 <= i < |groups| && t in groups[i]
  {
    if groups != [] {
      var init := groups[..|groups| - 1];
      FlattenMembership(init, t);
      if exists i :: 0 <= i < |init| && t in init[i] {
        var i :| 0 <= i < |init| && t in init[i];
        assert groups[i] == init[i];
      }
      if exists i :: 0 <= i < |groups| && t in groups[i] {
        var i :| 0 <= i < |groups| && t in groups[i];
        if i < |init| {
          assert init[i] == groups[i];
        }
      }
    }
  }

  /** The success flag of a tool call's result object. */
  predicate Succeeded(result: JsValue) {
    result.JObj? && Lookup(result.fields, "success") == Some(JBool(true))
  }

  class MCPServerManager {
    /** `this.servers`: never written by the current code. */
    var servers: JsMap.OrderedMap<string, JsValue>
    /** `this.tools`: group key to that group's tool descriptors. */
    var tools: JsMap.OrderedMap<string, seq<Tool>>
    /** `this.resources`: never written by the current code. */
    var resources: JsMap.OrderedMap<string, JsValue>

    ghost predicate Valid()
      reads this
    {
      servers.Valid() && tools.Valid() && resources.Valid()
    }

    /** A new manager holds no servers, no tools and no resources. */
    constructor()
      ensures Valid()
      ensures servers == JsMap.Empty() && tools == JsMap.Empty() && resources == JsMap.Empty()
    {
      servers := JsMap.Empty();
      tools := JsMap.Empty();
      resources := JsMap.Empty();
    }

    /** `initializeAllServers()`: store the mock tools under `mock` and return them. */
    method InitializeAllServers() returns (mockTools: seq<Tool>)
      requires Valid()
      modifies this`tools
      ensures Valid()
      ensures mockTools == MockTools()
      ensures tools == old(tools).Set(MockGroup, MockTools())
    {
      mockTools := MockTools();
      tools := tools.Set(MockGroup, mockTools);
    }

    /**
     * `getAvailableTools()`: for every group in insertion order, a copy of each
     * of its tools with the fields `server`, `name`, `description` and
     * `inputSchema`.
     */
    method GetAvailableTools() returns (allTools: seq<Tool>)
      requires Valid()
      ensures allTools == Flatten(tools.Values())
      ensures |allTools| == TotalCount(tools.Values())
    {
      allTools := [];
      var groups := tools.Values();
      var i := 0;
      while i < |tools.keys|
        invariant 0 <= i <= |tools.keys|
        invariant allTools == Flatten(groups[..i])
      {
        var group := tools.Get(tools.keys[i]);
        var j := 0;
        while j < |group|
          invariant 0 <= j <= |group|
          invariant allTools == Flatten(groups[..i]) + group[..j]
        {
          var tool := group[j];
          allTools := allTools + [Tool(tool.server, tool.name, tool.description, tool.inputSchema)];
          j := j + 1;
        }
        assert groups[..i + 1][..i] == groups[..i];
        i := i + 1;
      }
      assert groups[..i] == groups;
      FlattenLength(groups);
    }

    /**
     * `callTool(serverName, toolName, args)`: a switch on `toolName`.
     * `store_memory` echoes the arguments back as `stored`; `search_web` answers
     * one result line built from `args.query` (reading it throws when `args`
     * is `null` or `undefined`); any other name is reported as not found.
     */
    function CallTool(serverName: string, toolName: string, args: JsValue): (r: Result<JsValue, JsError>)
      ensures r.Err? <==> toolName == "search_web" && (args.JNull? || args.JUndefined?)
      ensures r.Ok? ==> r.value.JObj? && (Succeeded(r.value) <==> toolName == "store_memory" || toolName == "search_web")
      ensures toolName == "store_memory" ==> Lookup(r.value.fields, "stored") == Some(args)
      ensures toolName == "search_web" && r.Ok? ==>
                Lookup(r.value.fields, "results") ==
                Some(JArr([JStr("Mock search result for: " + ToDisplayString(GetNamedProperty(args, "query").value))]))
      ensures r.Ok? && !Succeeded(r.value) ==> Lookup(r.value.fields, "error") == Some(JStr("Tool not found"))
    {
      if toolName == "store_memory" then
        Ok(JObj([Field("success", JBool(true)), Field("stored", args)]))
      else if toolName == "search_web" then
        match GetNamedProperty(args, "query")
        case Err(e) => Err(e)
        case Ok(query) =>
          Ok(JObj([Field("success", JBool(true)),
                   Field("results", JArr([JStr("Mock search result for: " + ToDisplayString(query))]))]))
      else
        Ok(JObj([Field("success", JBool(false)), Field("error", JStr("Tool not found"))]))
    }
  }

  /** The outcome of a call depends on the tool name and arguments only, never on the server name. */
  lemma CallToolIgnoresServer(m: MCPServerManager, s1: string, s2: string, toolName: string, args: JsValue)
    ensures m.CallTool(s1, toolName, args) == m.CallTool(s2, toolName, args)
  {
  }

  /** A call succeeds exactly for the names of the mock tools (given arguments that can be read). */
  lemma CallToolSucceedsForMockTools(m: MCPServerManager, s: string, toolName: string, args: JsValue)
    requires !args.JNull? && !args.JUndefined?
    ensures m.CallTool(s, toolName, args).Ok?
    ensures Succeeded(m.CallTool(s, toolName, args).value) <==>
            exists t :: t in MockTools() && t.name == toolName
  {
    var ts := MockTools();
    if toolName == "store_memory" {
      assert ts[0] in ts;
    } else if toolName == "search_web" {
      assert ts[1] in ts;
    }
  }

  /** Listing the tools of a manager whose only group is `mock` gives the two mock tools, in order. */
  lemma ToolsAfterInitialize(t: JsMap.OrderedMap<string, seq<Tool>>)
    requires t.Valid() && (t.keys == [] || t.keys == [MockGroup])
    ensures t.Set(MockGroup, MockTools()).keys == [MockGroup]
    ensures Flatten(t.Set(MockGroup, MockTools()).Values()) == MockTools()
  {
    var groups := t.Set(MockGroup, MockTools()).Values();
    assert groups == [MockTools()];
    assert groups[..0] == [];
  }

  /**
   * The server's start-up: create the manager and initialise it; listing the
   * tools then yields `store_memory` of `memory` followed by `search_web` of
   * `web_search`, and initialising again changes nothing.
   */
  method StartUp() returns (available: seq<Tool>, availableAgain: seq<Tool>)
    ensures available == MockTools()
    ensures |available| == 2
    ensures available[0].server == "memory" && available[0].name == "store_memory"
    ensures available[1].server == "web_search" && available[1].name == "search_web"
    ensures availableAgain == available
  {
    var manager := new MCPServerManager();
    var installed := manager.InitializeAllServers();
    ToolsAfterInitialize(JsMap.Empty());
    available := manager.GetAvailableTools();
    JsMap.SetIdempotent(JsMap.Empty(), MockGroup, MockTools());
    var again := manager.InitializeAllServers();
    availableAgain := manager.GetAvailableTools();
  }
}
