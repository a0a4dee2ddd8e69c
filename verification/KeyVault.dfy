/** The key vault: opaque handles for API keys, and what a handle gives back. */
module KeyVault {
  import opened Common
  import opened Sequences

  type Vault = map<string, string>

  /** Splitting a string at every colon, as the language's own split does. */
  function SplitColon(s: string): (parts: seq<string>)
    ensures |parts| >= 1
  {
    if s == [] then [[]]
    else if s[0] == ':' then [[]] + SplitColon(s[1..])
    else
      var rest := SplitColon(s[1..]);
      [[s[0]] + rest[0]] + rest[1..]
  }

  lemma {:induction false} SplitHead(s: string)
    ensures SplitColon(s)[0] == BeforeFirst(s, ':')
  {
    if s != [] && s[0] != ':' {
      SplitHead(s[1..]);
    }
  }

  lemma {:induction false} SplitAfterPrefix(a: string, b: string)
    requires ':' !in a
    ensures SplitColon(a + ":" + b) == [a] + SplitColon(b)
  {
    var s := a + ":" + b;
    if a == [] {
      assert s[1..] == b;
    } else {
      assert s[1..] == a[1..] + ":" + b;
      SplitAfterPrefix(a[1..], b);
      assert s[0] == a[0] && [a[0]] + a[1..] == a;
      assert ([a[1..]] + SplitColon(b))[1..] == SplitColon(b);
    }
  }

  /** A handle for a stored key: it names the tool and hides the key. */
  function GetKey(keys: Vault, tool: string): Option<string> {
    if tool in keys then Some("vault:" + tool) else None
  }

  /** The key behind a handle; None where the source throws. */
  function Inject(keys: Vault, handle: string): Option<string> {
    var parts := SplitColon(handle);
    if parts[0] != "vault" || |parts| < 2 || parts[1] == "" then None
    else if parts[1] !in keys || keys[parts[1]] == "" then None
    else Some(keys[parts[1]])
  }

  /** What a tool's own handle gives back: the key stored under the part of the tool's name before its first colon. */
  lemma InjectOwnHandle(keys: Vault, tool: string)
    requires tool in keys
    ensures var name := BeforeFirst(tool, ':');
            Inject(keys, GetKey(keys, tool).value) ==
            if name != "" && name in keys && keys[name] != "" then Some(keys[name]) else None
  {
    assert "vault:" + tool == "vault" + ":" + tool;
    SplitAfterPrefix("vault", tool);
    SplitHead(tool);
  }

  /** A tool's handle gives back the tool's own key in every vault that stores a non-empty one, exactly when the
      tool's name is not empty and has no colon. */
  lemma HandleRoundTripIff(tool: string)
    ensures (forall keys: Vault :: tool in keys && keys[tool] != "" ==>
               Inject(keys, GetKey(keys, tool).value) == Some(keys[tool])) <==>
            tool != "" && ':' !in tool
  {
    BeforeFirstWhole(tool, ':');
    if tool != "" && ':' !in tool {
      forall keys: Vault | tool in keys && keys[tool] != ""
        ensures Inject(keys, GetKey(keys, tool).value) == Some(keys[tool])
      {
        InjectOwnHandle(keys, tool);
      }
    } else {
      var keys: Vault := map[tool := "k"];
      InjectOwnHandle(keys, tool);
      assert tool in keys && keys[tool] != "" && Inject(keys, GetKey(keys, tool).value) != Some(keys[tool]);
    }
  }

  /** With a colon in a tool's name, its handle can give back the key of another tool. */
  lemma ColonInjectsOtherKey(name: string, suffix: string, key: string, other: string)
    requires name != "" && ':' !in name && other != "" && key != other
    ensures var tool := name + ":" + suffix; var keys: Vault := map[name := other, tool := key];
            Inject(keys, GetKey(keys, tool).value) == Some(other) && keys[tool] == key
  {
    var tool := name + ":" + suffix;
    var keys: Vault := map[name := other, tool := key];
    assert |tool| > |name|;
    SplitAfterPrefix(name, suffix);
    SplitHead(tool);
    InjectOwnHandle(keys, tool);
  }

  /** A string split into two parts or more goes on after the first colon with the others. */
  lemma {:induction false} SplitTwo(s: string) returns (r: string)
    requires |SplitColon(s)| >= 2
    ensures s == SplitColon(s)[0] + ":" + r && SplitColon(r) == SplitColon(s)[1..]
  {
    if s[0] == ':' {
      return s[1..];
    }
    r := SplitTwo(s[1..]);
    var parts := SplitColon(s[1..]);
    assert SplitColon(s) == [[s[0]] + parts[0]] + parts[1..];
    assert s == [s[0]] + (parts[0] + ":" + r);
  }

  lemma {:induction false} BeforeFirstRest(s: string)
    ensures var name := BeforeFirst(s, ':');
            name <= s && ':' !in name && (|name| == |s| || s[|name|] == ':')
  {
    if s != [] && s[0] != ':' {
      BeforeFirstRest(s[1..]);
    }
  }

  lemma {:induction false} BeforeFirstOf(name: string, rest: string)
    requires ':' !in name && (rest == "" || rest[0] == ':')
    ensures BeforeFirst(name + rest, ':') == name
  {
    if name == [] {
      assert name + rest == rest;
    } else {
      assert (name + rest)[1..] == name[1..] + rest;
      BeforeFirstOf(name[1..], rest);
    }
  }

  /** A handle names a key. */
  ghost predicate NamesKey(handle: string, name: string) {
    name != "" && ':' !in name && (handle == "vault:" + name || exists rest :: handle == "vault:" + name + ":" + rest)
  }

  lemma NamedKeyInjected(keys: Vault, handle: string, name: string)
    requires NamesKey(handle, name) && name in keys && keys[name] != ""
    ensures Inject(keys, handle) == Some(keys[name])
  {
    var rest := handle[6 + |name|..];
    assert handle == "vault" + ":" + (name + rest);
    SplitAfterPrefix("vault", name + rest);
    SplitHead(name + rest);
    BeforeFirstOf(name, rest);
  }

  /** A handle gives back a key exactly when it is "vault:" and the name the key is stored under, with or without more
      after a further colon, and the key is not empty. */
  lemma InjectIff(keys: Vault, handle: string, key: string)
    ensures Inject(keys, handle) == Some(key) <==>
            key != "" && exists name :: NamesKey(handle, name) && name in keys && keys[name] == key
  {
    if Inject(keys, handle) == Some(key) {
      var r := SplitTwo(handle);
      SplitHead(r);
      BeforeFirstRest(r);
      var name := BeforeFirst(r, ':');
      assert name == SplitColon(handle)[1];
      assert handle == "vault" + ":" + r && r == name + r[|name|..];
      if |name| < |r| {
        assert r == name + ":" + r[|name| + 1..];
        assert handle == "vault:" + name + ":" + r[|name| + 1..];
      } else {
        assert r == name && handle == "vault:" + name;
      }
      assert NamesKey(handle, name);
    }
    if key != "" {
      if name :| NamesKey(handle, name) && name in keys && keys[name] == key {
        NamedKeyInjected(keys, handle, name);
      }
    }
  }
}
