/** TabManager (src/app/core/application/services/tab-manager.ts): the open tabs, in the order
    they were first opened, and the active one. A tab is known by its document's id
    (src/app/core/domain/tab/tab-state.ts); what a document holds is left to the type `D`. */
module TabManagers {
  import opened Wrappers
  import opened Sequences

  datatype TabDocument<D> = TabDocument(id: string, content: D)

  /** `new TabState(document)`: the tab takes its document's id. */
  datatype TabState<D> = TabState(id: string, document: TabDocument<D>)

  /** The list without `x`. */
  function Without(s: seq<string>, x: string): (r: seq<string>)
    ensures x !in r
    ensures forall k :: 0 <= k < |r| ==> r[k] in s
    ensures forall k :: 0 <= k < |s| && s[k] != x ==> s[k] in r
    ensures Distinct(s) ==> Distinct(r)
    ensures IsSubsequence(r, s)
    ensures x !in s ==> r == s
  {
    if |s| == 0 then []
    else
      var rest := Without(s[1..], x);
      assert forall k :: 1 <= k < |s| ==> s[k] == s[1..][k - 1];
      if s[0] == x then rest
      else
        assert ([s[0]] + rest)[1..] == rest;
        [s[0]] + rest
  }

  /** A JavaScript Map from ids to tabs: `order` lists its keys in insertion order. */
  class TabManager<D> {
    var tabs: map<string, TabState<D>>
    var order: seq<string>
    var activeTabId: Option<string>

    /** The keys of the map are the ids in `order`, each once; each tab is stored under its own
        id; and the active id, when there is one, names an open tab. */
    ghost predicate Valid()
      reads this
    {
      Distinct(order) &&
      (forall k :: 0 <= k < |order| ==> order[k] in tabs) &&
      (forall id :: id in tabs ==> id in order) &&
      (forall id :: id in tabs ==> tabs[id].id == id) &&
      (activeTabId.Some? ==> activeTabId.value in tabs)
    }

    constructor()
      ensures Valid() && tabs == map[] && order == [] && activeTabId.None?
    {
      tabs := map[];
      order := [];
      activeTabId := None;
    }

    /** `createTab(document)`: the new tab is stored under the document's id, replacing any tab
        with that id in its place, and becomes the active tab. */
    method CreateTab(document: TabDocument<D>) returns (tab: TabState<D>)
      requires Valid()
      modifies this
      ensures Valid()
      ensures tab.id == document.id && tab.document == document
      ensures tabs == old(tabs)[document.id := tab]
      ensures order == if document.id in old(tabs) then old(order) else old(order) + [document.id]
      ensures activeTabId == Some(document.id)
    {
      tab := TabState(document.id, document);
      if tab.id !in tabs {
        order := order + [tab.id];
      }
      tabs := tabs[tab.id := tab];
      activeTabId := Some(tab.id);
    }

    /** `closeTab(tabId)`: the tab is removed. If it was the active one, the first remaining
        tab in insertion order becomes active, or none when no tab is left; otherwise the active
        tab stays. */
    method CloseTab(tabId: string)
      requires Valid()
      modifies this
      ensures Valid()
      ensures tabs == old(tabs) - {tabId} && order == Without(old(order), tabId)
      ensures old(activeTabId) == Some(tabId) ==> activeTabId == (if |order| > 0 then Some(order[0]) else None)
      ensures old(activeTabId) != Some(tabId) ==> activeTabId == old(activeTabId)
    {
      var oldOrder := order;
      tabs := tabs - {tabId};
      order := Without(order, tabId);
      forall id | id in tabs
        ensures id in order
      {
        var k :| 0 <= k < |oldOrder| && oldOrder[k] == id;
      }
      DistinctKeysCount(order, tabs);
      if activeTabId == Some(tabId) {
        // Array.from(this.tabs.keys())[0]: the first key in insertion order
        activeTabId := if |tabs| > 0 then Some(order[0]) else None;
      }
    }

    /** `getActiveTab()`: the active tab. There is none when no tab is active, and also when the
        active id is the empty string, which the source's truthiness test treats as absent. */
    function GetActiveTab(): (r: Option<TabState<D>>)
      requires Valid()
      reads this
      ensures r.None? <==> activeTabId.None? || activeTabId.value == ""
      ensures r.Some? ==> r.value == tabs[activeTabId.value] && r.value.id == activeTabId.value
    {
      // `this.tabs.get(id) ?? null`: the active id always names an open tab
      if activeTabId.None? || activeTabId.value == "" then None
      else Some(tabs[activeTabId.value])
    }

    /** `setActiveTab(tabId)`: an open tab becomes active; an unknown id is ignored. */
    method SetActiveTab(tabId: string)
      requires Valid()
      modifies this
      ensures Valid() && tabs == old(tabs) && order == old(order)
      ensures activeTabId == if tabId in tabs then Some(tabId) else old(activeTabId)
    {
      if tabId in tabs {
        activeTabId := Some(tabId);
      }
    }

    /** `getAllTabs()`: every open tab once, in the order the ids were first opened. */
    function GetAllTabs(): (r: seq<TabState<D>>)
      requires Valid()
      reads this
      ensures |r| == |order| == |tabs|
      ensures forall k :: 0 <= k < |r| ==> r[k] == tabs[order[k]] && r[k].id == order[k]
    {
      DistinctKeysCount(order, tabs);
      var ids, m := order, tabs;
      seq(|ids|, k requires 0 <= k < |ids| => m[ids[k]])
    }
  }

  /** A list of distinct ids that are exactly the map's keys is as long as the map. */
  lemma {:induction false} DistinctKeysCount<V>(order: seq<string>, m: map<string, V>)
    requires Distinct(order)
    requires forall k :: 0 <= k < |order| ==> order[k] in m
    requires forall id :: id in m ==> id in order
    ensures |m| == |order|
    decreases |order|
  {
    if |order| == 0 {
      assert m.Keys == {};
    } else {
      var last := order[|order| - 1];
      var init := order[..|order| - 1];
      assert forall k :: 0 <= k < |init| ==> init[k] == order[k];
      assert last !in init;
      var rest := m - {last};
      forall id | id in rest
        ensures id in init
      {
        var k :| 0 <= k < |order| && order[k] == id;
        assert k != |order| - 1;
      }
      DistinctKeysCount(init, rest);
      assert m.Keys == rest.Keys + {last};
    }
  }
}
