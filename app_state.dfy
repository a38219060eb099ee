/** The per-tab cache of src/stores/appState.js. */
module AppState {

  /** What a tab saves: a falsy value (`null`, `undefined`, `0`, `""`, `false`) or an object. */
  datatype TabValue = Falsy | Object(fields: map<string, string>)

  /** The `{}` returned for a tab with nothing truthy saved. */
  const EmptyObject: TabValue := Object(map[])

  class Store {
    var tabData: map<string, TabValue>

    constructor ()
      ensures tabData == map[]
    {
      tabData := map[];
    }

    /** `getTabData`: the saved value when it is truthy, else an empty object. */
    function GetTabData(tabName: string): (d: TabValue)
      reads this
      ensures d.Object?
      ensures tabName in tabData && tabData[tabName].Object? ==> d == tabData[tabName]
      ensures tabName !in tabData || tabData[tabName].Falsy? ==> d == EmptyObject
    {
      if tabName in tabData && tabData[tabName].Object? then tabData[tabName] else EmptyObject
    }

    /** `saveTabData`: the entry for `tabName` is set, every other entry is kept. */
    method SaveTabData(tabName: string, data: TabValue)
      modifies this
      ensures tabData == old(tabData)[tabName := data]
      ensures GetTabData(tabName) == if data.Object? then data else EmptyObject
      ensures forall t :: t != tabName ==> GetTabData(t) == old(GetTabData(t))
    {
      tabData := tabData[tabName := data];
    }
  }

  /** A second save to a tab overwrites the first. */
  method SaveTwiceKeepsLast(store: Store, tabName: string, first: TabValue, second: TabValue)
    modifies store
    ensures store.tabData == old(store.tabData)[tabName := second]
  {
    store.SaveTabData(tabName, first);
    store.SaveTabData(tabName, second);
  }
}
