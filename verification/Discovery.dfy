/** Discovery: the tools an agent is told it may use, and that it may use exactly those. */
module Discovery {
  import opened Common
  import opened Roles
  import opened RoleCache
  import opened Registry
  import opened Pipeline

  datatype ToolItem = ToolItem(key: string, baseUrl: string, description: string, allowedActions: set<Action>)

  /** The items for the first n registered tools that have at least one permission. */
  function ItemsFor(tools: seq<ToolConfig>, role: RoleWithPermissions, n: nat): seq<ToolItem>
    requires n <= |KeyOrder(tools)|
  {
    if n == 0 then []
    else
      var key := KeyOrder(tools)[n - 1];
      ItemsFor(tools, role, n - 1) +
      if key in ToolMap(tools) && PermissionsFor(role, key) != {} then
        var tool := ToolMap(tools)[key];
        [ToolItem(tool.key, tool.baseUrl, tool.description, PermissionsFor(role, key))]
      else []
  }

  /** The tools/list answer: nothing without an agent, a role or an active role. */
  function Listed(tools: seq<ToolConfig>, agent: Option<string>, lookup: Lookup): seq<ToolItem> {
    if !Truthy(agent) || lookup.Err? || !lookup.role.isActive then []
    else ItemsFor(tools, lookup.role, |KeyOrder(tools)|)
  }

  /** A tool is mapped under its own key. */
  lemma {:induction false} ToolMapKeys(tools: seq<ToolConfig>)
    ensures forall key <- ToolMap(tools) :: ToolMap(tools)[key].key == key
    decreases |tools|
  {
    if tools != [] {
      ToolMapKeys(tools[..|tools| - 1]);
    }
  }

  method ListTools(registry: ToolRegistry, agent: Option<string>, lookup: Lookup) returns (tools: seq<ToolItem>)
    requires registry.Valid()
    ensures tools == Listed(registry.config, agent, lookup)
  {
    var allTools := registry.ListTools();
    tools := [];
    if !Truthy(agent) || lookup.Err? {
      return;
    }
    var role := lookup.role;
    if role.isActive {
      for i := 0 to |allTools|
        invariant tools == ItemsFor(registry.config, role, i)
      {
        var tool := allTools[i];
        ToolMapKeys(registry.config);
        if tool.key in role.permissions && |role.permissions[tool.key]| > 0 {
          tools := tools + [ToolItem(tool.key, tool.baseUrl, tool.description, role.permissions[tool.key])];
        }
      }
    }
  }

  /** The list offers an action on a tool. */
  ghost predicate Offers(items: seq<ToolItem>, tool: string, action: Action) {
    exists i :: 0 <= i < |items| && items[i].key == tool && action in items[i].allowedActions
  }

  lemma OffersMore(items: seq<ToolItem>, item: ToolItem, tool: string, action: Action)
    ensures Offers(items + [item], tool, action) <==>
            Offers(items, tool, action) || (item.key == tool && action in item.allowedActions)
  {
    var all := items + [item];
    assert all[|items|] == item && forall i :: 0 <= i < |items| ==> all[i] == items[i];
  }

  lemma {:induction false} OffersIff(
      tools: seq<ToolConfig>, role: RoleWithPermissions, n: nat, tool: string, action: Action)
    requires n <= |KeyOrder(tools)|
    ensures Offers(ItemsFor(tools, role, n), tool, action) <==>
            tool in KeyOrder(tools)[..n] && Allows(role.permissions, tool, action)
  {
    if n != 0 {
      OffersIff(tools, role, n - 1, tool, action);
      KeyOrderIs(tools);
      ToolMapKeys(tools);
      var key := KeyOrder(tools)[n - 1];
      assert KeyOrder(tools)[..n] == KeyOrder(tools)[..n - 1] + [key];
      assert key in KeyOrder(tools) && key in ToolMap(tools);
      if PermissionsFor(role, key) == {} {
        assert ItemsFor(tools, role, n) == ItemsFor(tools, role, n - 1);
        assert !Allows(role.permissions, key, action);
      } else {
        var mapped := ToolMap(tools)[key];
        OffersMore(ItemsFor(tools, role, n - 1),
                   ToolItem(mapped.key, mapped.baseUrl, mapped.description, PermissionsFor(role, key)), tool, action);
      }
    }
  }

  /** What an item says: its tool is the last one configured under its key, with that tool's base URL and description,
      and its actions are those of the role on the tool, at least one. */
  ghost predicate ItemSays(tools: seq<ToolConfig>, role: RoleWithPermissions, item: ToolItem) {
    && (exists k: nat :: LastWithKey(tools, item.key, k) &&
                         item.baseUrl == tools[k].baseUrl && item.description == tools[k].description)
    && item.key in role.permissions && item.allowedActions == role.permissions[item.key] && item.allowedActions != {}
  }

  lemma {:induction false} ItemsSay(tools: seq<ToolConfig>, role: RoleWithPermissions, n: nat)
    requires n <= |KeyOrder(tools)|
    ensures forall item <- ItemsFor(tools, role, n) :: ItemSays(tools, role, item) && item.key in KeyOrder(tools)[..n]
  {
    if n != 0 {
      ItemsSay(tools, role, n - 1);
      ToolMapKeys(tools);
      var key := KeyOrder(tools)[n - 1];
      assert KeyOrder(tools)[..n] == KeyOrder(tools)[..n - 1] + [key];
      var k := ToolMapIsLast(tools, key);
    }
  }

  /** No tool is listed twice. */
  ghost predicate EachOnce(items: seq<ToolItem>) {
    forall i, j :: 0 <= i < j < |items| ==> items[i].key != items[j].key
  }

  lemma OnceMore(items: seq<ToolItem>, item: ToolItem)
    requires EachOnce(items) && forall other <- items :: other.key != item.key
    ensures EachOnce(items + [item])
  {
    assert forall i :: 0 <= i < |items| ==> items[i] in items;
  }

  /** One registered tool more adds no item, or one under its key. */
  lemma ItemsNext(tools: seq<ToolConfig>, role: RoleWithPermissions, n: nat) returns (item: ToolItem)
    requires 0 < n <= |KeyOrder(tools)|
    ensures item.key == KeyOrder(tools)[n - 1]
    ensures || ItemsFor(tools, role, n) == ItemsFor(tools, role, n - 1)
            || ItemsFor(tools, role, n) == ItemsFor(tools, role, n - 1) + [item]
  {
    ToolMapKeys(tools);
    KeyOrderIs(tools);
    var key := KeyOrder(tools)[n - 1];
    assert key in KeyOrder(tools);
    var tool := ToolMap(tools)[key];
    item := ToolItem(tool.key, tool.baseUrl, tool.description, PermissionsFor(role, key));
  }

  lemma KeyIsNew(tools: seq<ToolConfig>, n: nat)
    requires n < |KeyOrder(tools)|
    ensures KeyOrder(tools)[n] !in KeyOrder(tools)[..n]
  {
    KeyOrderIs(tools);
  }

  lemma {:induction false} ItemsOnce(tools: seq<ToolConfig>, role: RoleWithPermissions, n: nat)
    requires n <= |KeyOrder(tools)|
    ensures EachOnce(ItemsFor(tools, role, n))
  {
    if n != 0 {
      ItemsOnce(tools, role, n - 1);
      ItemsSay(tools, role, n - 1);
      var item := ItemsNext(tools, role, n);
      KeyIsNew(tools, n - 1);
      OnceMore(ItemsFor(tools, role, n - 1), item);
    }
  }

  /** The answer to tools/list lists each tool once and describes it as configured; without an agent, a role or an
      active role it lists nothing. */
  lemma ListedAsConfigured(tools: seq<ToolConfig>, agent: Option<string>, lookup: Lookup)
    ensures var items := Listed(tools, agent, lookup);
            && EachOnce(items)
            && (items != [] ==> Truthy(agent) && lookup.Ok? && lookup.role.isActive)
            && forall item <- items :: lookup.Ok? && ItemSays(tools, lookup.role, item)
  {
    if Truthy(agent) && lookup.Ok? && lookup.role.isActive {
      ItemsSay(tools, lookup.role, |KeyOrder(tools)|);
      ItemsOnce(tools, lookup.role, |KeyOrder(tools)|);
    }
  }

  /** For one role, tools/list offers an action on a tool exactly when a signed request for a URL matched to that tool,
      with a method of that action, reaches the executor or fails only for want of a key or a readable body. */
  lemma DiscoveryAgreesWithEnforcement(inp: Inputs, action: Action)
    requires KeysNamed(inp.tools) && Truthy(inp.recovered) && Find(inp.tools, inp.request.targetUrl).Some?
    requires match action
             case Read => inp.request.method_ == GET || inp.request.method_ == HEAD
             case Create => inp.request.method_ == POST
             case Update => inp.request.method_ == PUT || inp.request.method_ == PATCH
             case Delete => inp.request.method_ == DELETE
    ensures var tool := Find(inp.tools, inp.request.targetUrl).value.key;
            var offered := Offers(Listed(inp.tools, inp.recovered, inp.lookup), tool, action);
            Handled(inp).call.Some? <==> offered && tool in inp.keys && inp.bodyReadable
  {
    ExecutorRunsIff(inp);
    ToolMapKeys(inp.tools);
    KeyOrderIs(inp.tools);
    var tool, n := Find(inp.tools, inp.request.targetUrl).value.key, |KeyOrder(inp.tools)|;
    assert tool in ToolMap(inp.tools);
    assert KeyOrder(inp.tools)[..n] == KeyOrder(inp.tools);
    if inp.lookup.Ok? {
      OffersIff(inp.tools, inp.lookup.role, n, tool, action);
    }
  }
}
