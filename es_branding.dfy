/**
 * The `esBranding` plugin object: the release guard around
 * `tag.registerPluginCallback`, the page gate, the readiness poll, and the
 * two transform hooks that collect the page's metadata into `metaObject`
 * and push it into (or clear it from) a hit's `argsa` list.
 */
module EsBranding {
  import opened Wrappers
  import opened JsStrings
  import opened Sanitizer
  import opened MetaData

  /** A plugin option as the plugin sees it: unset or falsy, a string, or a truthy non-string. */
  datatype Setting = Unset | Text(s: string) | NonText

  /** The recognised plugin options; `charLimit` is the already parsed number, `None` when absent or falsy. */
  datatype Config = Config(dispFormPages: Setting, charLimit: Option<int>)

  const DefaultCharLimit := 100

  function CharLimit(config: Config): int {
    match config.charLimit
    case Some(n) => n
    case None => DefaultCharLimit
  }

  /** `dispFormPages.toLowerCase().split(",")`. */
  function Fragments(pages: string): (r: seq<string>)
    ensures |r| >= 1 && forall i :: 0 <= i < |r| ==> ',' !in r[i]
    ensures Join(r, ",") == Lower(pages)
  {
    JoinSplitOn(Lower(pages), ',');
    SplitOn(Lower(pages), ',')
  }

  /** Some fragment is a substring of the (lower-cased) path. */
  predicate Delays(pages: seq<string>, loc: string) {
    exists i :: 0 <= i < |pages| && Contains(loc, pages[i])
  }

  /** The plugin holds the tag: `dispFormPages` is a non-empty string one of whose fragments the lower-cased path contains. */
  predicate GateDelays(config: Config, pathname: string) {
    && config.dispFormPages.Text?
    && config.dispFormPages.s != ""
    && Delays(Fragments(config.dispFormPages.s), Lower(pathname))
  }

  /** The gate loop: stops at the first fragment that occurs in the path. */
  method PageGate(pages: seq<string>, loc: string) returns (delay: bool)
    ensures delay <==> Delays(pages, loc)
  {
    delay := false;
    var i := 0;
    while i < |pages|
      invariant 0 <= i <= |pages|
      invariant forall j :: 0 <= j < i ==> !Contains(loc, pages[j])
    {
      if IndexOf(loc, pages[i]) >= 0 {
        delay := true;
        break;
      }
      i := i + 1;
    }
  }

  /** An empty fragment occurs in every path. */
  lemma EmptyFragmentDelays(pages: seq<string>, loc: string)
    requires "" in pages
    ensures Delays(pages, loc)
  {
    var i :| 0 <= i < |pages| && pages[i] == "";
    ContainsEmpty(loc);
  }

  /** A trailing comma in `dispFormPages` makes the plugin hold the tag on every page. */
  lemma TrailingCommaDelaysEverywhere(pages: string, limit: Option<int>, pathname: string)
    ensures GateDelays(Config(Text(pages + ","), limit), pathname)
  {
    var lowered := Lower(pages + ",");
    assert lowered == Lower(pages) + [','];
    SplitOnTrailing(Lower(pages), ',');
    var frags := Fragments(pages + ",");
    assert frags[|frags| - 1] == "";
    EmptyFragmentDelays(frags, Lower(pathname));
  }

  /** A single configured page (no comma) holds the tag exactly on paths that contain it, ignoring case. */
  lemma SinglePageGate(page: string, limit: Option<int>, pathname: string)
    requires page != "" && ',' !in page
    ensures GateDelays(Config(Text(page), limit), pathname) <==> Contains(Lower(pathname), Lower(page))
  {
    var lowered := Lower(page);
    assert ',' !in lowered;
    SplitOnWithout(lowered, ',');
    assert Fragments(page) == [lowered];
    if Contains(Lower(pathname), lowered) {
      assert [lowered][0] == lowered;
    }
  }

  /** The gate does not depend on the letter case of the path. */
  lemma GateIgnoresPathCase(config: Config, pathname: string)
    ensures GateDelays(config, pathname) == GateDelays(config, Lower(pathname))
  {
    LowerIdempotent(pathname);
  }

  /** The person/account clean-up inside `collectData`, with its loop and `break`. */
  method ResolveAccount(v: string) returns (r: string)
    ensures r == ResolvedAccount(v)
  {
    r := v;
    if IndexOf(v, AccountMarker) >= 0 {
      var parts := SplitAccount(v);
      var i := 0;
      while i < |parts|
        invariant 0 <= i <= |parts|
        invariant r == v
        invariant forall j :: 0 <= j < i ==> !StartsNonDigit(parts[j])
      {
        if StartsNonDigit(parts[i]) {
          r := parts[i];
          break;
        }
        i := i + 1;
      }
    }
  }

  /** The host's `multiTrackObject` for one hit: the clicked element, if any, and the parameter list. */
  class Hit {
    const element: Option<Element>
    var argsa: seq<string>

    constructor (element: Option<Element>, argsa: seq<string>)
      ensures this.element == element && this.argsa == argsa
    {
      this.element := element;
      this.argsa := argsa;
    }
  }

  /** Inert: released with no hooks. Waiting: hooks installed, poll running. Observing: released, hooks installed. */
  datatype Phase = Inert | Waiting | Observing

  class Plugin {
    /** The `registered` flag. */
    var registered: bool
    /** How often `tag.registerPluginCallback("esBranding")` has been called. */
    var hostCalls: nat
    /** The `waitForReady` interval is running. */
    var polling: bool
    /** The two transforms have been added to the host. */
    var hooksInstalled: bool
    const charLimit: int
    /** `metaObject`: its keys in enumeration order, and its contents. */
    var metaKeys: seq<string>
    var metaValues: map<string, string>

    ghost function MetaObject(): Meta
      reads this
    {
      Meta(metaKeys, metaValues)
    }

    /**
     * The host is called back once exactly when the flag is set, the tag is
     * held exactly while the poll runs, and `metaObject` stays empty unless
     * the hooks are installed.
     */
    ghost predicate Valid()
      reads this
    {
      && hostCalls == (if registered then 1 else 0)
      && registered == !polling
      && (polling ==> hooksInstalled)
      && (!hooksInstalled ==> MetaObject() == EmptyMeta)
      && WellFormed(MetaObject())
    }

    ghost function CurrentPhase(): Phase
      reads this
    {
      if !hooksInstalled then Inert else if polling then Waiting else Observing
    }

    /** `esBranding(tag, plugin)` on a page whose `location.pathname` is `pathname`. */
    constructor (config: Config, pathname: string)
      ensures Valid()
      ensures charLimit == CharLimit(config)
      ensures MetaObject() == EmptyMeta
      ensures CurrentPhase() == (if GateDelays(config, pathname) then Waiting else Inert)
      ensures hostCalls == (if GateDelays(config, pathname) then 0 else 1)
    {
      registered := false;
      hostCalls := 0;
      polling := false;
      hooksInstalled := false;
      charLimit := CharLimit(config);
      metaKeys := [];
      metaValues := map[];
      new;
      var delay := false;
      match config.dispFormPages {
        case Text(s) =>
          if s != "" {
            var pages := Fragments(s);
            var loc := Lower(pathname);
            delay := PageGate(pages, loc);
          }
        case Unset =>
        case NonText =>
          // toLowerCase on a non-string throws; the outer catch releases the tag
      }
      if delay {
        polling := true;
        hooksInstalled := true;
      } else {
        Register();
      }
    }

    /** `register()`: the host is called back only the first time. */
    method Register()
      requires hostCalls == (if registered then 1 else 0)
      modifies this
      ensures registered && hostCalls == 1
      ensures hostCalls == old(hostCalls) + (if old(registered) then 0 else 1)
      ensures polling == old(polling) && hooksInstalled == old(hooksInstalled)
      ensures metaKeys == old(metaKeys) && metaValues == old(metaValues)
    {
      if !registered {
        registered := true;
        hostCalls := hostCalls + 1;
      }
    }

    /** One tick of the `waitForReady` interval; once it has been cleared no tick arrives. */
    method Poll(readyState: string)
      requires Valid()
      modifies this
      ensures Valid()
      ensures polling == (old(polling) && readyState != "complete")
      ensures hostCalls == old(hostCalls) + (if old(polling) && readyState == "complete" then 1 else 0)
      ensures hooksInstalled == old(hooksInstalled) && MetaObject() == old(MetaObject())
      ensures CurrentPhase() == (if old(CurrentPhase()) == Waiting && readyState == "complete" then Observing else old(CurrentPhase()))
    {
      if polling && readyState == "complete" {
        polling := false;
        Register();
      }
    }

    /** `collectData()`: reads the page and writes into `metaObject` in place. */
    method CollectData(page: Page)
      requires Valid() && hooksInstalled
      modifies this
      ensures Valid()
      ensures MetaObject() == Collect(old(MetaObject()), page)
      ensures registered == old(registered) && hostCalls == old(hostCalls)
      ensures polling == old(polling) && hooksInstalled == old(hooksInstalled)
    {
      match page.placeholderId {
        case None =>
        case Some(id) =>
          var prefix := Prefix(id);
          var name := FormCtxName(prefix);
          if name in page.globals {
            var listData := page.globals[name].listData;
            var i := 0;
            while i < |listData|
              invariant 0 <= i <= |listData|
              invariant MetaObject() == CollectList(old(MetaObject()), listData[..i])
              invariant WellFormed(MetaObject())
              invariant registered == old(registered) && hostCalls == old(hostCalls)
              invariant polling == old(polling) && hooksInstalled == old(hooksInstalled)
            {
              StoreProperty(listData[i].0, listData[i].1);
              assert listData[..i + 1][..i] == listData[..i];
              i := i + 1;
            }
            assert listData[..|listData|] == listData;
          } else {
            Store(ErrorKey, ErrorMessage(prefix));
          }
      }
    }

    /** One property of `ListData`: normalise its name, resolve and clean a non-empty string value, store it. */
    method StoreProperty(prop: string, value: JsValue)
      requires WellFormed(MetaObject())
      modifies this
      ensures WellFormed(MetaObject())
      ensures MetaObject() == StoreEntry(old(MetaObject()), (prop, value))
      ensures registered == old(registered) && hostCalls == old(hostCalls)
      ensures polling == old(polling) && hooksInstalled == old(hooksInstalled)
    {
      var propName := NormalizeKey(prop);
      if value.Str? && value.s != "" {
        var propValue := ResolveAccount(value.s);
        Store(propName, Clean(propValue));
      }
    }

    /** `metaObject[key] = value`. */
    method Store(key: string, value: string)
      modifies this
      ensures MetaObject() == Put(old(MetaObject()), key, value)
      ensures registered == old(registered) && hostCalls == old(hostCalls)
      ensures polling == old(polling) && hooksInstalled == old(hooksInstalled)
    {
      if key !in metaValues {
        metaKeys := metaKeys + [key];
      }
      metaValues := metaValues[key := value];
    }

    /** `pushData(multiTrackObject, clear)`: appends a name and a value per stored key. */
    method PushData(hit: Hit, clear: bool)
      requires Valid()
      modifies hit
      ensures hit.argsa == old(hit.argsa) + Payload(metaKeys, metaValues, clear, charLimit)
    {
      var keys, values := metaKeys, metaValues;
      assert forall k :: k in keys ==> k in values;
      var i := 0;
      while i < |keys|
        invariant 0 <= i <= |keys|
        invariant hit.argsa == old(hit.argsa) + Payload(keys[..i], values, clear, charLimit)
      {
        var name := keys[i];
        // `clear ? "" : metaObject[item]`, then truncated to the limit
        var value := PushedValue(values, name, clear, charLimit);
        assert keys[..i + 1] == keys[..i] + [name];
        PayloadAppend(keys[..i], name, values, clear, charLimit);
        hit.argsa := hit.argsa + [ParamPrefix + name, value];
        i := i + 1;
      }
      assert metaKeys[..|metaKeys|] == metaKeys;
    }

    /** The "collect" transform: re-collect, then push the stored values. */
    method OnPageView(page: Page, hit: Hit)
      requires Valid()
      modifies this, hit
      ensures Valid()
      ensures hooksInstalled ==> MetaObject() == Collect(old(MetaObject()), page)
      ensures hooksInstalled ==> hit.argsa == old(hit.argsa) + Payload(metaKeys, metaValues, false, charLimit)
      ensures !hooksInstalled ==> MetaObject() == old(MetaObject()) && hit.argsa == old(hit.argsa)
      ensures registered == old(registered) && hostCalls == old(hostCalls)
      ensures polling == old(polling) && hooksInstalled == old(hooksInstalled)
    {
      if hooksInstalled {
        CollectData(page);
        PushData(hit, false);
      }
    }

    /**
     * The "multitrack" transform: push the stored values for a download
     * link, clear them for any other link, and push nothing when reading the
     * element faults.
     */
    method OnLinkClick(hit: Hit)
      requires Valid()
      modifies hit
      ensures var d := PushesValues(hit.element);
        hit.argsa == if hooksInstalled && d.Some? then old(hit.argsa) + Payload(metaKeys, metaValues, !d.value, charLimit)
                     else old(hit.argsa)
    {
      if hooksInstalled {
        var d := PushesValues(hit.element);
        if d.Some? {
          PushData(hit, !d.value);
        }
      }
    }
  }
}
