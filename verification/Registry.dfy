/** The tool registry: which configured tool a target URL belongs to. */
module Registry {
  import opened Common

  datatype ToolConfig = ToolConfig(key: string, description: string, baseUrl: string, keyRef: string)

  datatype BaseUrl = BaseUrl(baseUrl: string, toolKey: string)

  function BaseUrlOf(tool: ToolConfig): BaseUrl {
    BaseUrl(tool.baseUrl, tool.key)
  }

  predicate Covers(baseUrl: string, targetUrl: string) {
    baseUrl <= targetUrl
  }

  /** A base URL covers the targets that go on from it. */
  lemma CoversIff(baseUrl: string, targetUrl: string)
    ensures Covers(baseUrl, targetUrl) <==> exists rest :: targetUrl == baseUrl + rest
  {
    if Covers(baseUrl, targetUrl) {
      assert targetUrl == baseUrl + targetUrl[|baseUrl|..];
    }
  }

  // ---------------------------------------------------------------- sorting

  /** Put an element behind all that are at least as long. */
  function InsertByLength(sorted: seq<BaseUrl>, x: BaseUrl): seq<BaseUrl> {
    if sorted == [] || |x.baseUrl| > |sorted[0].baseUrl| then [x] + sorted
    else [sorted[0]] + InsertByLength(sorted[1..], x)
  }

  /** The stable sort by descending length, as the language's own sort gives it. */
  function SortByLength(s: seq<BaseUrl>): seq<BaseUrl> {
    if s == [] then [] else InsertByLength(SortByLength(s[..|s| - 1]), s[|s| - 1])
  }

  ghost predicate LongestFirst(s: seq<BaseUrl>) {
    forall i, j :: 0 <= i < j < |s| ==> |s[i].baseUrl| >= |s[j].baseUrl|
  }

  lemma {:induction false} InsertContents(sorted: seq<BaseUrl>, x: BaseUrl)
    ensures multiset(InsertByLength(sorted, x)) == multiset(sorted) + multiset{x}
  {
    if sorted != [] && |x.baseUrl| <= |sorted[0].baseUrl| {
      InsertContents(sorted[1..], x);
      assert sorted == [sorted[0]] + sorted[1..];
    }
  }

  lemma InsertMember(sorted: seq<BaseUrl>, x: BaseUrl, y: BaseUrl)
    ensures y in InsertByLength(sorted, x) <==> y in sorted || y == x
  {
    InsertContents(sorted, x);
    assert y in InsertByLength(sorted, x) <==> y in multiset(InsertByLength(sorted, x));
  }

  lemma {:induction false} InsertKeeps(sorted: seq<BaseUrl>, x: BaseUrl)
    requires LongestFirst(sorted)
    ensures LongestFirst(InsertByLength(sorted, x))
  {
    if sorted != [] && |x.baseUrl| <= |sorted[0].baseUrl| {
      InsertKeeps(sorted[1..], x);
      var rest := InsertByLength(sorted[1..], x);
      forall i | 0 <= i < |rest|
        ensures |sorted[0].baseUrl| >= |rest[i].baseUrl|
      {
        InsertMember(sorted[1..], x, rest[i]);
      }
    }
  }

  lemma {:induction false} SortSorts(s: seq<BaseUrl>)
    ensures LongestFirst(SortByLength(s)) && multiset(SortByLength(s)) == multiset(s)
    decreases |s|
  {
    if s != [] {
      var init, last := s[..|s| - 1], s[|s| - 1];
      assert s == init + [last];
      SortSorts(init);
      InsertKeeps(SortByLength(init), last);
      InsertContents(SortByLength(init), last);
    }
  }

  // ---------------------------------------------------------------- the first match

  /** The first base URL that is a prefix of the target. */
  function FirstMatch(s: seq<BaseUrl>, targetUrl: string): Option<BaseUrl> {
    if s == [] then None
    else if Covers(s[0].baseUrl, targetUrl) then Some(s[0])
    else FirstMatch(s[1..], targetUrl)
  }

  lemma {:induction false} FirstMatchIsIn(s: seq<BaseUrl>, targetUrl: string)
    ensures match FirstMatch(s, targetUrl)
            case Some(x) => x in s && Covers(x.baseUrl, targetUrl)
            case None => forall x <- s :: !Covers(x.baseUrl, targetUrl)
  {
    if s != [] {
      FirstMatchIsIn(s[1..], targetUrl);
    }
  }

  /** Inserting an element changes the first match only if the element matches and is strictly longer. */
  lemma {:induction false} FirstMatchInsert(sorted: seq<BaseUrl>, x: BaseUrl, targetUrl: string)
    requires LongestFirst(sorted)
    ensures var before := FirstMatch(sorted, targetUrl);
            FirstMatch(InsertByLength(sorted, x), targetUrl) ==
            if Covers(x.baseUrl, targetUrl) && (before.None? || |before.value.baseUrl| < |x.baseUrl|) then Some(x)
            else before
  {
    if sorted == [] || |x.baseUrl| > |sorted[0].baseUrl| {
      assert ([x] + sorted)[1..] == sorted;
      FirstMatchIsIn(sorted, targetUrl);
    } else {
      FirstMatchInsert(sorted[1..], x, targetUrl);
      assert InsertByLength(sorted, x)[1..] == InsertByLength(sorted[1..], x);
    }
  }

  /** The i-th tool covers the target, no covering tool has a longer base URL, and none with as long a one comes
      earlier in the configuration. */
  ghost predicate LongestMatch(tools: seq<ToolConfig>, targetUrl: string, i: nat) {
    && i < |tools| && Covers(tools[i].baseUrl, targetUrl)
    && forall j :: 0 <= j < |tools| && Covers(tools[j].baseUrl, targetUrl) ==>
         |tools[j].baseUrl| < |tools[i].baseUrl| || (|tools[j].baseUrl| == |tools[i].baseUrl| && i <= j)
  }

  function BaseUrls(tools: seq<ToolConfig>): seq<BaseUrl> {
    seq(|tools|, i requires 0 <= i < |tools| => BaseUrlOf(tools[i]))
  }

  ghost predicate NoneCovers(tools: seq<ToolConfig>, targetUrl: string) {
    forall i :: 0 <= i < |tools| ==> !Covers(tools[i].baseUrl, targetUrl)
  }

  /** One more tool becomes the longest match exactly when it covers the target and is strictly longer. */
  lemma LongestMatchGrows(tools: seq<ToolConfig>, last: ToolConfig, targetUrl: string, i: nat)
    requires LongestMatch(tools, targetUrl, i)
    ensures var all := tools + [last];
            if Covers(last.baseUrl, targetUrl) && |last.baseUrl| > |tools[i].baseUrl| then
              LongestMatch(all, targetUrl, |tools|)
            else LongestMatch(all, targetUrl, i)
  {
    var all := tools + [last];
    assert forall j :: 0 <= j < |tools| ==> all[j] == tools[j];
  }

  /** The first match in the sorted list is the longest match, the first of them in configuration order. */
  lemma {:induction false} FirstMatchIsLongest(tools: seq<ToolConfig>, targetUrl: string) returns (i: nat)
    ensures match FirstMatch(SortByLength(BaseUrls(tools)), targetUrl)
            case Some(x) => LongestMatch(tools, targetUrl, i) && x == BaseUrlOf(tools[i])
            case None => NoneCovers(tools, targetUrl)
    decreases |tools|
  {
    if tools == [] {
      return 0;
    }
    var n := |tools| - 1;
    var init, last := tools[..n], tools[n];
    i := FirstMatchIsLongest(init, targetUrl);
    assert tools == init + [last];
    assert BaseUrls(tools)[..n] == BaseUrls(init);
    SortSorts(BaseUrls(init));
    var before := FirstMatch(SortByLength(BaseUrls(init)), targetUrl);
    FirstMatchInsert(SortByLength(BaseUrls(init)), BaseUrlOf(last), targetUrl);
    if before.Some? {
      LongestMatchGrows(init, last, targetUrl, i);
      if Covers(last.baseUrl, targetUrl) && |last.baseUrl| > |init[i].baseUrl| {
        i := n;
      }
    } else {
      i := n;
    }
  }

  // ---------------------------------------------------------------- the registry

  /** The map built by setting each tool in turn: the last tool with a key wins. */
  function ToolMap(tools: seq<ToolConfig>): map<string, ToolConfig> {
    if tools == [] then map[] else ToolMap(tools[..|tools| - 1])[tools[|tools| - 1].key := tools[|tools| - 1]]
  }

  /** The keys in the order in which they were first set, which is the order a Map lists them in. */
  function KeyOrder(tools: seq<ToolConfig>): seq<string> {
    if tools == [] then []
    else
      var init, key := KeyOrder(tools[..|tools| - 1]), tools[|tools| - 1].key;
      if key in init then init else init + [key]
  }

  ghost predicate DistinctKeys(tools: seq<ToolConfig>) {
    forall i, j :: 0 <= i < j < |tools| ==> tools[i].key != tools[j].key
  }

  /** The k-th tool is the last one configured under the key. */
  ghost predicate LastWithKey(tools: seq<ToolConfig>, key: string, k: nat) {
    k < |tools| && tools[k].key == key && forall j :: k < j < |tools| ==> tools[j].key != key
  }

  /** A key maps to the last tool configured under it. */
  lemma {:induction false} ToolMapIsLast(tools: seq<ToolConfig>, key: string) returns (k: nat)
    ensures key in ToolMap(tools) <==> exists i :: 0 <= i < |tools| && tools[i].key == key
    ensures key in ToolMap(tools) ==> LastWithKey(tools, key, k) && ToolMap(tools)[key] == tools[k]
    decreases |tools|
  {
    if tools == [] {
      return 0;
    }
    var n := |tools| - 1;
    var init := tools[..n];
    k := ToolMapIsLast(init, key);
    assert forall i :: 0 <= i < n ==> init[i] == tools[i];
    if tools[n].key == key {
      k := n;
    }
  }

  lemma {:induction false} KeyOrderIs(tools: seq<ToolConfig>)
    ensures forall key :: key in KeyOrder(tools) <==> key in ToolMap(tools)
    ensures forall i, j :: 0 <= i < j < |KeyOrder(tools)| ==> KeyOrder(tools)[i] != KeyOrder(tools)[j]
    decreases |tools|
  {
    if tools != [] {
      KeyOrderIs(tools[..|tools| - 1]);
    }
  }

  ghost predicate FirstWithKey(tools: seq<ToolConfig>, key: string, i: nat) {
    i < |tools| && tools[i].key == key && forall j :: 0 <= j < i ==> tools[j].key != key
  }

  lemma KeyUsed(tools: seq<ToolConfig>, key: string)
    requires key in KeyOrder(tools)
    ensures exists i :: 0 <= i < |tools| && tools[i].key == key
  {
    KeyOrderIs(tools);
    var k := ToolMapIsLast(tools, key);
  }

  lemma KeyUsedBefore(tools: seq<ToolConfig>, key: string)
    requires key !in KeyOrder(tools)
    ensures forall i :: 0 <= i < |tools| ==> tools[i].key != key
  {
    KeyOrderIs(tools);
    var k := ToolMapIsLast(tools, key);
  }

  /** Keys stand in the order of their first uses. */
  lemma {:induction false} KeyOrderByFirstUse(tools: seq<ToolConfig>, i: nat, j: nat, a: nat, b: nat)
    requires i < j < |KeyOrder(tools)|
    requires FirstWithKey(tools, KeyOrder(tools)[i], a) && FirstWithKey(tools, KeyOrder(tools)[j], b)
    ensures a < b
    decreases |tools|
  {
    var n := |tools| - 1;
    var init := tools[..n];
    KeyOrderIs(init);
    if tools[n].key in KeyOrder(init) || j < |KeyOrder(init)| {
      KeyUsed(init, KeyOrder(tools)[i]);
      KeyUsed(init, KeyOrder(tools)[j]);
      assert FirstWithKey(init, KeyOrder(tools)[i], a) && FirstWithKey(init, KeyOrder(tools)[j], b);
      KeyOrderByFirstUse(init, i, j, a, b);
    } else {
      KeyUsed(init, KeyOrder(tools)[i]);
      KeyUsedBefore(init, KeyOrder(tools)[j]);
      assert a < n && b == n;
    }
  }

  /** What findTool answers for a configuration. */
  function Find(tools: seq<ToolConfig>, targetUrl: string): Option<ToolConfig> {
    match FirstMatch(SortByLength(BaseUrls(tools)), targetUrl)
    case None => None
    case Some(x) => if x.toolKey in ToolMap(tools) then Some(ToolMap(tools)[x.toolKey]) else None
  }

  /** Every key in the sorted list is registered. */
  lemma SortedKeysKnown(tools: seq<ToolConfig>)
    ensures forall x <- SortByLength(BaseUrls(tools)) :: x.toolKey in ToolMap(tools)
  {
    SortSorts(BaseUrls(tools));
    forall x <- SortByLength(BaseUrls(tools))
      ensures x.toolKey in ToolMap(tools)
    {
      assert x in multiset(BaseUrls(tools));
      var i :| 0 <= i < |tools| && x == BaseUrlOf(tools[i]);
      assert tools[i].key == x.toolKey;
      var k := ToolMapIsLast(tools, x.toolKey);
    }
  }

  /** What registering one tool more changes. */
  lemma OneToolMore(tools: seq<ToolConfig>, i: nat)
    requires i < |tools|
    ensures var before, after, key := tools[..i], tools[..i + 1], tools[i].key;
            && ToolMap(after) == ToolMap(before)[key := tools[i]]
            && KeyOrder(after) == (if key in ToolMap(before) then KeyOrder(before) else KeyOrder(before) + [key])
            && BaseUrls(after) == BaseUrls(before) + [BaseUrlOf(tools[i])]
  {
    assert tools[..i + 1][..i] == tools[..i];
    KeyOrderIs(tools[..i]);
  }

  class ToolRegistry {
    ghost const config: seq<ToolConfig>
    var tools: map<string, ToolConfig>
    var toolKeys: seq<string>
    var baseUrls: seq<BaseUrl>

    ghost predicate Valid()
      reads this
    {
      tools == ToolMap(config) && toolKeys == KeyOrder(config) && baseUrls == SortByLength(BaseUrls(config))
    }

    constructor (config: seq<ToolConfig>)
      ensures Valid() && this.config == config
    {
      this.config := config;
      tools, toolKeys, baseUrls := map[], [], [];
      new;
      for i := 0 to |config|
        invariant tools == ToolMap(config[..i]) && toolKeys == KeyOrder(config[..i])
        invariant baseUrls == BaseUrls(config[..i]) && this.config == config
      {
        OneToolMore(config, i);
        if config[i].key !in tools {
          toolKeys := toolKeys + [config[i].key];
        }
        tools := tools[config[i].key := config[i]];
        baseUrls := baseUrls + [BaseUrlOf(config[i])];
      }
      assert config[..|config|] == config;
      baseUrls := SortByLength(baseUrls);
    }

    /** The tool a target URL belongs to, or none: an unknown tool. */
    method FindTool(targetUrl: string) returns (found: Option<ToolConfig>)
      requires Valid()
      ensures found == Find(config, targetUrl)
    {
      SortedKeysKnown(config);
      for i := 0 to |baseUrls|
        invariant FirstMatch(baseUrls, targetUrl) == FirstMatch(baseUrls[i..], targetUrl)
      {
        var BaseUrl(baseUrl, toolKey) := baseUrls[i];
        if Covers(baseUrl, targetUrl) {
          assert baseUrls[i] in baseUrls;
          if toolKey in tools {
            return Some(tools[toolKey]);
          }
        }
      }
      return None;
    }

    /** All tools, in the order in which their keys were first set. */
    method ListTools() returns (all: seq<ToolConfig>)
      requires Valid()
      ensures |all| == |toolKeys| && forall i :: 0 <= i < |all| ==> toolKeys[i] in tools && all[i] == tools[toolKeys[i]]
    {
      KeyOrderIs(config);
      all := [];
      for i := 0 to |toolKeys|
        invariant |all| == i && forall j :: 0 <= j < i ==> toolKeys[j] in tools && all[j] == tools[toolKeys[j]]
      {
        assert toolKeys[i] in KeyOrder(config);
        all := all + [tools[toolKeys[i]]];
      }
    }
  }

  lemma FindIndices(tools: seq<ToolConfig>, targetUrl: string) returns (i: nat, k: nat)
    ensures Find(tools, targetUrl).None? <==> NoneCovers(tools, targetUrl)
    ensures Find(tools, targetUrl).Some? ==>
              LongestMatch(tools, targetUrl, i) && LastWithKey(tools, tools[i].key, k) &&
              Find(tools, targetUrl) == Some(tools[k])
  {
    k := 0;
    i := FirstMatchIsLongest(tools, targetUrl);
    SortedKeysKnown(tools);
    FirstMatchIsIn(SortByLength(BaseUrls(tools)), targetUrl);
    if FirstMatch(SortByLength(BaseUrls(tools)), targetUrl).Some? {
      k := ToolMapIsLast(tools, tools[i].key);
    }
  }

  /** Whatever the configuration: the search fails exactly when no base URL is a prefix of the target; otherwise it
      picks the key of the longest match, first in configuration order on ties, and returns the last tool configured
      under that key. */
  lemma FindIsLongestPrefix(tools: seq<ToolConfig>, targetUrl: string)
    ensures Find(tools, targetUrl).None? <==> NoneCovers(tools, targetUrl)
    ensures Find(tools, targetUrl).Some? ==>
              exists i: nat, k: nat ::
                LongestMatch(tools, targetUrl, i) && LastWithKey(tools, tools[i].key, k) &&
                Find(tools, targetUrl) == Some(tools[k])
  {
    var i, k := FindIndices(tools, targetUrl);
  }

  /** With distinct keys the tool returned is the longest match itself. */
  lemma LongestPrefix(tools: seq<ToolConfig>, targetUrl: string)
    requires DistinctKeys(tools) && Find(tools, targetUrl).Some?
    ensures exists i: nat :: LongestMatch(tools, targetUrl, i) && Find(tools, targetUrl) == Some(tools[i])
  {
    var i, k := FindIndices(tools, targetUrl);
    assert LongestMatch(tools, targetUrl, i) && i == k;
  }

  // ---------------------------------------------------------------- keys that are used twice

  /** The i-th tool is the first one configured with its base URL. */
  ghost predicate FirstWithBase(tools: seq<ToolConfig>, i: nat) {
    i < |tools| && forall j :: 0 <= j < i ==> tools[j].baseUrl != tools[i].baseUrl
  }

  lemma LongestMatchIsFirst(tools: seq<ToolConfig>, targetUrl: string, i: nat)
    requires LongestMatch(tools, targetUrl, i)
    ensures FirstWithBase(tools, i)
  {
  }

  /** A target that is a tool's own base URL is answered with the last tool under that tool's key. */
  lemma OwnBaseUrl(tools: seq<ToolConfig>, i: nat, k: nat)
    requires FirstWithBase(tools, i) && LastWithKey(tools, tools[i].key, k)
    ensures LongestMatch(tools, tools[i].baseUrl, i)
    ensures Find(tools, tools[i].baseUrl) == Some(tools[k])
  {
    var target := tools[i].baseUrl;
    var m, n := FindIndices(tools, target);
    assert Covers(tools[i].baseUrl, target);
    assert tools[m].baseUrl == target && m == i && n == k;
  }

  /** The longest match is unique. */
  lemma OneLongestMatch(tools: seq<ToolConfig>, targetUrl: string, i: nat, j: nat)
    requires LongestMatch(tools, targetUrl, i) && LongestMatch(tools, targetUrl, j)
    ensures i == j
  {
  }

  /** Every tool returned covers the target if and only if the last tool under a key has a base URL that is a prefix of
      those of the tools it displaces. */
  lemma RoutedToolCoversIff(tools: seq<ToolConfig>)
    ensures (forall u :: Find(tools, u).Some? ==> Covers(Find(tools, u).value.baseUrl, u)) <==>
            (forall i: nat, k: nat :: FirstWithBase(tools, i) && LastWithKey(tools, tools[i].key, k) ==>
               Covers(tools[k].baseUrl, tools[i].baseUrl))
  {
    if forall u :: Find(tools, u).Some? ==> Covers(Find(tools, u).value.baseUrl, u) {
      forall i: nat, k: nat | FirstWithBase(tools, i) && LastWithKey(tools, tools[i].key, k)
        ensures Covers(tools[k].baseUrl, tools[i].baseUrl)
      {
        OwnBaseUrl(tools, i, k);
      }
    }
    if forall i: nat, k: nat :: FirstWithBase(tools, i) && LastWithKey(tools, tools[i].key, k) ==>
         Covers(tools[k].baseUrl, tools[i].baseUrl) {
      forall u | Find(tools, u).Some?
        ensures Covers(Find(tools, u).value.baseUrl, u)
      {
        var i, k := FindIndices(tools, u);
        LongestMatchIsFirst(tools, u, i);
        assert Covers(tools[k].baseUrl, tools[i].baseUrl);
      }
    }
  }

  /** Every tool returned is the longest match if and only if the last tool under a key is the same as the tools it
      displaces. */
  lemma RoutedToolIsLongestIff(tools: seq<ToolConfig>)
    ensures (forall u :: Find(tools, u).Some? ==>
               exists i: nat :: LongestMatch(tools, u, i) && Find(tools, u).value == tools[i]) <==>
            (forall i: nat, k: nat :: FirstWithBase(tools, i) && LastWithKey(tools, tools[i].key, k) ==>
               tools[k] == tools[i])
  {
    if forall u :: Find(tools, u).Some? ==>
         exists i: nat :: LongestMatch(tools, u, i) && Find(tools, u).value == tools[i] {
      forall i: nat, k: nat | FirstWithBase(tools, i) && LastWithKey(tools, tools[i].key, k)
        ensures tools[k] == tools[i]
      {
        OwnBaseUrl(tools, i, k);
        var j: nat :| LongestMatch(tools, tools[i].baseUrl, j) && Find(tools, tools[i].baseUrl).value == tools[j];
        OneLongestMatch(tools, tools[i].baseUrl, i, j);
      }
    }
    if forall i: nat, k: nat :: FirstWithBase(tools, i) && LastWithKey(tools, tools[i].key, k) ==>
         tools[k] == tools[i] {
      forall u | Find(tools, u).Some?
        ensures exists i: nat :: LongestMatch(tools, u, i) && Find(tools, u).value == tools[i]
      {
        var i, k := FindIndices(tools, u);
        LongestMatchIsFirst(tools, u, i);
        assert tools[k] == tools[i];
      }
    }
  }

  /** Two tools under one key: a URL of the first is answered with the second, whose base URL need not cover it. */
  lemma DuplicateKeyMisroutes(a: ToolConfig, b: ToolConfig)
    requires a.key == b.key && !Covers(b.baseUrl, a.baseUrl)
    ensures Find([a, b], a.baseUrl) == Some(b)
  {
    var i, k := FindIndices([a, b], a.baseUrl);
    assert Covers([a, b][0].baseUrl, a.baseUrl);
  }

  // ---------------------------------------------------------------- the authority of a target

  /** Where the authority of a URL begins: after the first "://". */
  function AuthorityStart(url: string, from: nat): Option<nat>
    requires from <= |url|
    decreases |url| - from
  {
    if from + 3 > |url| then None
    else if url[from..from + 3] == "://" then Some(from + 3)
    else AuthorityStart(url, from + 1)
  }

  predicate EndsAuthority(ch: char) {
    ch == '/' || ch == '?' || ch == '#'
  }

  /** Where it ends: at the next slash, question mark or number sign, or with the URL (section 3.2 of RFC 3986). */
  function AuthorityEnd(url: string, from: nat): nat
    requires from <= |url|
    decreases |url| - from
  {
    if from == |url| || EndsAuthority(url[from]) then from else AuthorityEnd(url, from + 1)
  }

  lemma {:induction false} StartIsWithin(url: string, from: nat)
    requires from <= |url|
    ensures AuthorityStart(url, from).Some? ==> from <= AuthorityStart(url, from).value <= |url|
    decreases |url| - from
  {
    if from + 3 <= |url| && url[from..from + 3] != "://" {
      StartIsWithin(url, from + 1);
    }
  }

  lemma {:induction false} EndIsWithin(url: string, from: nat)
    requires from <= |url|
    ensures from <= AuthorityEnd(url, from) <= |url|
    decreases |url| - from
  {
    if from < |url| && !EndsAuthority(url[from]) {
      EndIsWithin(url, from + 1);
    }
  }

  /** The authority of a URL, which has none without "://". */
  function Authority(url: string): Option<string> {
    StartIsWithin(url, 0);
    match AuthorityStart(url, 0)
    case None => None
    case Some(start) =>
      EndIsWithin(url, start);
      Some(url[start..AuthorityEnd(url, start)])
  }

  /** The base URL goes on after its authority. */
  predicate AuthorityEnds(url: string) {
    StartIsWithin(url, 0);
    AuthorityStart(url, 0).Some? && AuthorityEnd(url, AuthorityStart(url, 0).value) < |url|
  }

  lemma {:induction false} SameStart(baseUrl: string, targetUrl: string, from: nat)
    requires Covers(baseUrl, targetUrl) && from <= |baseUrl| && AuthorityStart(baseUrl, from).Some?
    ensures AuthorityStart(targetUrl, from) == AuthorityStart(baseUrl, from)
    decreases |baseUrl| - from
  {
    assert targetUrl[from..from + 3] == baseUrl[from..from + 3];
    if baseUrl[from..from + 3] != "://" {
      SameStart(baseUrl, targetUrl, from + 1);
    }
  }

  lemma {:induction false} SameEnd(baseUrl: string, targetUrl: string, from: nat)
    requires Covers(baseUrl, targetUrl) && from <= |baseUrl| && AuthorityEnd(baseUrl, from) < |baseUrl|
    ensures AuthorityEnd(targetUrl, from) == AuthorityEnd(baseUrl, from)
    decreases |baseUrl| - from
  {
    if from < |baseUrl| && !EndsAuthority(baseUrl[from]) {
      SameEnd(baseUrl, targetUrl, from + 1);
    }
  }

  /** An authority that runs to the end of the URL runs on through a letter put behind it. */
  lemma {:induction false} EndRunsOn(url: string, from: nat, ch: char)
    requires from <= |url| && AuthorityEnd(url, from) == |url| && !EndsAuthority(ch)
    ensures AuthorityEnd(url + [ch], from) == |url| + 1
    decreases |url| - from
  {
    if from < |url| {
      EndRunsOn(url, from + 1, ch);
    }
  }

  /** Everything a base URL covers has its authority, if and only if the base URL goes on with a slash, a question mark
      or a number sign after its authority. */
  lemma SameAuthorityIff(baseUrl: string)
    requires AuthorityStart(baseUrl, 0).Some?
    ensures (forall u :: Covers(baseUrl, u) ==> Authority(u) == Authority(baseUrl)) <==> AuthorityEnds(baseUrl)
  {
    StartIsWithin(baseUrl, 0);
    var start := AuthorityStart(baseUrl, 0).value;
    EndIsWithin(baseUrl, start);
    if AuthorityEnds(baseUrl) {
      forall u | Covers(baseUrl, u)
        ensures Authority(u) == Authority(baseUrl)
      {
        SameStart(baseUrl, u, 0);
        SameEnd(baseUrl, u, start);
        var end := AuthorityEnd(baseUrl, start);
        assert u[start..end] == baseUrl[start..end];
      }
    } else {
      var u := baseUrl + ['.'];
      SameStart(baseUrl, u, 0);
      EndRunsOn(baseUrl, start, '.');
      assert |Authority(u).value| == |Authority(baseUrl).value| + 1;
      assert Covers(baseUrl, u);
    }
  }
}
