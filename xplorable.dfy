/**
 * Stories (xplore/xplorable.py): an `Xplorable` subclass lists the block
 * classes of a story.  Constructing it settles the settings, builds one
 * block per class, numbered from 1 and linked into a ring, finalises every
 * block, collects the CSS and JS files to serve, and registers a route per
 * block name and number plus the index route `/`.  The router answers a
 * pathname with the registered layout or with a fallback.
 */
module Stories {
  import opened Base
  import opened Errors
  import opened Tree
  import opened Format
  import opened Utils
  import opened Layouts
  import opened Blocks

  // ---------------------------------------------------------------------
  // Settings
  // ---------------------------------------------------------------------

  /**
   * A setting's value.  A callable is represented by a handler number; the
   * router applies it through a function it is given.
   */
  datatype Value =
    | NoneValue
    | BoolValue(b: bool)
    | StrValue(s: string)
    | StrsValue(items: seq<string>)
    | NodeValue(node: Node)
    | FuncValue(handler: nat)

  /** Settings by name; a name that is not there reads as `None`. */
  type Settings = map<string, Value>

  function Get(s: Settings, key: string): Value {
    if key in s then s[key] else NoneValue
  }

  /** `settings_attrs`: the settings a keyword argument may override. */
  const SETTINGS_ATTRS: seq<string> := [
    "page_element_id", "navbar_element_id", "index_page_layout", "index_page_type",
    "route_not_found_layout", "root_path", "serve_locally", "use_bootstrap",
    "bootstrap_js_urls", "bootstrap_css_urls", "navbar", "static_url_path", "static_folder"]

  /** The defaults of xplore/settings.py, under the lower-case setting names. */
  const DEFAULT_SETTINGS: Settings := map[
    "page_element_id" := StrValue("page"),
    "navbar_element_id" := StrValue("navbar"),
    "index_page_type" := StrValue("first"),
    "use_bootstrap" := BoolValue(true),
    "serve_locally" := BoolValue(false),
    "navbar" := BoolValue(true),
    "static_folder" := StrValue("static"),
    "bootstrap_css_urls" := StrsValue(["xplore/css/bootstrap.min.css"]),
    "bootstrap_js_urls" := StrsValue([
      "xplore/js/jquery-3.2.1.slim.min.js", "xplore/js/popper.min.js", "xplore/js/bootstrap.min.js"])]

  /** `Xplorable.css_files` */
  const XPLORABLE_CSS: seq<string> := ["xplore/css/xplore.css", "xplore/font/source-sans-pro/source-sans-pro.css"]

  /** `Xplorable.js_files` */
  const XPLORABLE_JS: seq<string> := []

  /**
   * The `settings` argument: none (xplore's defaults), the name of a
   * settings module (represented by the settings it holds), a dict-like
   * object, or anything else.
   */
  datatype SettingsArg = NoSettings | Module(loaded: Settings) | Mapping(given: Settings) | Unsupported

  /** The settings before the keyword overrides, or the ValidationException for an unsupported argument. */
  function BaseSettings(arg: SettingsArg): (r: Result<Settings>)
    ensures r.Err? <==> arg.Unsupported?
    ensures r.Err? ==> r.error == Validation(BadSettings)
    ensures arg.NoSettings? ==> r == Ok(DEFAULT_SETTINGS)
    ensures arg.Mapping? ==> r == Ok(arg.given)
  {
    match arg
    case NoSettings => Ok(DEFAULT_SETTINGS)
    case Module(loaded) => Ok(loaded)
    case Mapping(given) => Ok(given)
    case Unsupported => Err(Validation(BadSettings))
  }

  /** Whether keyword argument `k` overrides its setting: a known setting given a value other than `None`. */
  predicate Overrides(kwargs: Settings, k: string) {
    k in SETTINGS_ATTRS && Get(kwargs, k) != NoneValue
  }

  /** The settings once the keyword arguments have overridden them. */
  function Overridden(settings: Settings, kwargs: Settings): Settings {
    OverriddenBy(settings, kwargs, SETTINGS_ATTRS)
  }

  /** The settings once the keyword arguments for the names in `attrs` have overridden them. */
  function OverriddenBy(settings: Settings, kwargs: Settings, attrs: seq<string>): Settings {
    map k | k in settings.Keys + (set a | a in attrs && Get(kwargs, a) != NoneValue) ::
      if k in attrs && Get(kwargs, k) != NoneValue then kwargs[k] else settings[k]
  }

  /** Overriding by no names changes nothing. */
  lemma OverriddenByNone(settings: Settings, kwargs: Settings)
    ensures OverriddenBy(settings, kwargs, []) == settings
  {
    assert OverriddenBy(settings, kwargs, []).Keys == settings.Keys;
  }

  /** One more name: its keyword argument, when not `None`, is written over the setting. */
  lemma OverriddenByStep(settings: Settings, kwargs: Settings, attrs: seq<string>, a: string)
    ensures OverriddenBy(settings, kwargs, attrs + [a]) ==
      if Get(kwargs, a) != NoneValue then OverriddenBy(settings, kwargs, attrs)[a := kwargs[a]]
      else OverriddenBy(settings, kwargs, attrs)
  {
    var before := OverriddenBy(settings, kwargs, attrs);
    var after := OverriddenBy(settings, kwargs, attrs + [a]);
    assert forall k :: k in attrs + [a] <==> k in attrs || k == a;
    if Get(kwargs, a) != NoneValue {
      assert after.Keys == before.Keys + {a};
    } else {
      assert after.Keys == before.Keys;
    }
  }

  /**
   * The override loop of `__init__`: a setting of `settings_attrs` given a
   * keyword argument other than `None` takes its value, and every other
   * setting, known or not, keeps its own.
   */
  method OverrideSettings(settings: Settings, kwargs: Settings) returns (s: Settings)
    ensures s == Overridden(settings, kwargs)
  {
    s := settings;
    OverriddenByNone(settings, kwargs);
    for i := 0 to |SETTINGS_ATTRS|
      invariant s == OverriddenBy(settings, kwargs, SETTINGS_ATTRS[..i])
    {
      OverriddenByStep(settings, kwargs, SETTINGS_ATTRS[..i], SETTINGS_ATTRS[i]);
      assert SETTINGS_ATTRS[..i + 1] == SETTINGS_ATTRS[..i] + [SETTINGS_ATTRS[i]];
      var value := Get(kwargs, SETTINGS_ATTRS[i]);
      if value != NoneValue {
        s := s[SETTINGS_ATTRS[i] := value];
      }
    }
    assert SETTINGS_ATTRS[..|SETTINGS_ATTRS|] == SETTINGS_ATTRS;
  }

  /**
   * What the overrides give: exactly the settings there were and the known
   * settings given a value other than `None`; those take the keyword
   * argument's value and every other setting, known or not, keeps its own.
   */
  lemma OverriddenSpec(settings: Settings, kwargs: Settings)
    ensures forall k :: k in Overridden(settings, kwargs) <==> k in settings || Overrides(kwargs, k)
    ensures forall k :: Overrides(kwargs, k) ==> Overridden(settings, kwargs)[k] == kwargs[k]
    ensures forall k :: k in settings && !Overrides(kwargs, k) ==> Overridden(settings, kwargs)[k] == settings[k]
  {
  }

  /** Keyword arguments that override nothing leave the settings as they are. */
  lemma OverriddenNothing(settings: Settings, kwargs: Settings)
    requires forall a :: a in SETTINGS_ATTRS ==> Get(kwargs, a) == NoneValue
    ensures Overridden(settings, kwargs) == settings
  {
  }

  /**
   * Python truthiness of a setting.  A component setting counts as true and,
   * in `Items`, as not iterable; Dash components define `__len__` and
   * `__iter__`, so a component given where a flag or a file list is expected
   * is outside the modelled cases.
   */
  predicate Truthy(v: Value) {
    match v
    case NoneValue => false
    case BoolValue(b) => b
    case StrValue(s) => s != []
    case StrsValue(items) => items != []
    case NodeValue(_) => true
    case FuncValue(_) => true
  }

  /** Iterating over a setting: a list gives its items, a string its characters. */
  function Items(v: Value): (r: Result<seq<string>>)
    ensures r.Ok? <==> v.StrsValue? || v.StrValue?
    ensures v.StrsValue? ==> r == Ok(v.items)
    ensures v.StrValue? ==> |r.value| == |v.s| && forall i :: 0 <= i < |v.s| ==> r.value[i] == [v.s[i]]
  {
    match v
    case StrsValue(items) => Ok(items)
    case StrValue(s) => Ok(seq(|s|, i requires 0 <= i < |s| => [s[i]]))
    case _ => Err(NotIterable)
  }

  // ---------------------------------------------------------------------
  // Routes
  // ---------------------------------------------------------------------

  /** The dictionary `register_route` writes into, after the registrations `regs` in order. */
  function Assign(m: map<string, Value>, regs: seq<(string, Value)>): map<string, Value>
    decreases |regs|
  {
    if regs == [] then m
    else Assign(m, regs[..|regs| - 1])[regs[|regs| - 1].0 := regs[|regs| - 1].1]
  }

  /** A route is registered exactly when it was there already or some registration names it. */
  lemma {:induction false} AssignKeys(m: map<string, Value>, regs: seq<(string, Value)>, key: string)
    ensures key in Assign(m, regs) <==> key in m || exists j :: 0 <= j < |regs| && regs[j].0 == key
    decreases |regs|
  {
    if regs != [] {
      var init := regs[..|regs| - 1];
      AssignKeys(m, init, key);
      if exists j :: 0 <= j < |regs| && regs[j].0 == key {
        var j :| 0 <= j < |regs| && regs[j].0 == key;
        if j < |regs| - 1 {
          assert init[j].0 == key;
        }
      }
      if exists j :: 0 <= j < |init| && init[j].0 == key {
        var j :| 0 <= j < |init| && init[j].0 == key;
        assert regs[j].0 == key;
      }
    }
  }

  /** The last registration of a route wins: earlier ones are overwritten. */
  lemma {:induction false} AssignLastWins(m: map<string, Value>, regs: seq<(string, Value)>, j: int)
    requires 0 <= j < |regs|
    requires forall i :: j < i < |regs| ==> regs[i].0 != regs[j].0
    ensures regs[j].0 in Assign(m, regs) && Assign(m, regs)[regs[j].0] == regs[j].1
    decreases |regs|
  {
    if j < |regs| - 1 {
      var init := regs[..|regs| - 1];
      AssignLastWins(m, init, j);
    }
  }

  /** A route no registration names keeps its old layout. */
  lemma {:induction false} AssignUntouched(m: map<string, Value>, regs: seq<(string, Value)>, key: string)
    requires forall i :: 0 <= i < |regs| ==> regs[i].0 != key
    ensures key in Assign(m, regs) <==> key in m
    ensures key in m ==> Assign(m, regs)[key] == m[key]
    decreases |regs|
  {
    if regs != [] {
      AssignUntouched(m, regs[..|regs| - 1], key);
    }
  }

  /** What the route registration loop needs of a block: its url, its index and its layout. */
  datatype Entry = Entry(url: string, index: int, layout: Node)

  /** `'/' + page.url`, registered first. */
  function SlugRoute(e: Entry): (string, Value) {
    ("/" + e.url, NodeValue(e.layout))
  }

  /** `'/' + str(page.index)`, registered second. */
  function NumberRoute(e: Entry): (string, Value) {
    ("/" + IntToString(e.index), NodeValue(e.layout))
  }

  /** The registrations of the `routes` loop, in order. */
  function Registrations(es: seq<Entry>): (regs: seq<(string, Value)>)
    ensures |regs| == 2 * |es|
  {
    if es == [] then []
    else Registrations(es[..|es| - 1]) + [SlugRoute(es[|es| - 1]), NumberRoute(es[|es| - 1])]
  }

  /** Page `k`'s slug route is registration `2k`, and its number route registration `2k + 1`. */
  lemma {:induction false} RegistrationsAt(es: seq<Entry>, k: int)
    requires 0 <= k < |es|
    ensures Registrations(es)[2 * k] == SlugRoute(es[k])
    ensures Registrations(es)[2 * k + 1] == NumberRoute(es[k])
    decreases |es|
  {
    if k < |es| - 1 {
      RegistrationsAt(es[..|es| - 1], k);
    }
  }

  /** Every registration is the slug route (at `2k`) or the number route (at `2k + 1`) of some page `k`. */
  lemma {:induction false} RegistrationOf(es: seq<Entry>, i: int)
    requires 0 <= i < 2 * |es|
    ensures exists k :: (0 <= k < |es| &&
      ((i == 2 * k && Registrations(es)[i] == SlugRoute(es[k])) ||
       (i == 2 * k + 1 && Registrations(es)[i] == NumberRoute(es[k]))))
    decreases |es|
  {
    var init := es[..|es| - 1];
    if i < 2 * |init| {
      RegistrationOf(init, i);
      var k :| 0 <= k < |init| &&
        ((i == 2 * k && Registrations(init)[i] == SlugRoute(init[k])) ||
         (i == 2 * k + 1 && Registrations(init)[i] == NumberRoute(init[k])));
      assert init[k] == es[k];
    } else {
      assert Registrations(es)[i] == if i == 2 * |init| then SlugRoute(es[|init|]) else NumberRoute(es[|init|]);
    }
  }

  /** The routes of the pages: `routes` before the index route is added. */
  function RouteMap(es: seq<Entry>): map<string, Value> {
    Assign(map[], Registrations(es))
  }

  /** The routes are exactly `'/' + url` and `'/' + str(index)` for each page. */
  lemma RouteMapKeys(es: seq<Entry>, key: string)
    ensures key in RouteMap(es) <==>
      exists k :: 0 <= k < |es| && (key == "/" + es[k].url || key == "/" + IntToString(es[k].index))
  {
    var regs := Registrations(es);
    AssignKeys(map[], regs, key);
    if key in RouteMap(es) {
      var j :| 0 <= j < |regs| && regs[j].0 == key;
      RegistrationOf(es, j);
    }
    if exists k :: 0 <= k < |es| && (key == "/" + es[k].url || key == "/" + IntToString(es[k].index)) {
      var k :| 0 <= k < |es| && (key == "/" + es[k].url || key == "/" + IntToString(es[k].index));
      RegistrationsAt(es, k);
    }
  }

  /** The route page `k` registers first (`number` false) or second (`number` true). */
  function RouteOf(e: Entry, number: bool): (string, Value) {
    if number then NumberRoute(e) else SlugRoute(e)
  }

  /**
   * A registration of page `k` wins when no later page registers its
   * route, and, for the slug route, the page's own number route does not
   * spell it.
   */
  lemma RouteAfter(es: seq<Entry>, k: int, number: bool)
    requires 0 <= k < |es|
    requires !number ==> es[k].url != IntToString(es[k].index)
    requires forall j :: k < j < |es| ==>
      "/" + es[j].url != RouteOf(es[k], number).0 && "/" + IntToString(es[j].index) != RouteOf(es[k], number).0
    ensures RouteOf(es[k], number).0 in RouteMap(es)
    ensures RouteMap(es)[RouteOf(es[k], number).0] == RouteOf(es[k], number).1
  {
    var regs := Registrations(es);
    var i := if number then 2 * k + 1 else 2 * k;
    RegistrationsAt(es, k);
    assert regs[i] == RouteOf(es[k], number);
    forall l | i < l < |regs|
      ensures regs[l].0 != regs[i].0
    {
      RegistrationOf(es, l);
      var j :| 0 <= j < |es| &&
        ((l == 2 * j && regs[l] == SlugRoute(es[j])) || (l == 2 * j + 1 && regs[l] == NumberRoute(es[j])));
      if j == k {
        assert ("/" + es[k].url)[1..] == es[k].url;
        assert ("/" + IntToString(es[k].index))[1..] == IntToString(es[k].index);
      }
    }
    AssignLastWins(map[], regs, i);
  }

  /**
   * A page's slug route leads to its layout unless a later page takes it
   * over: a later page with the same slug, or one whose number spells it;
   * the page's own number must not spell it either.
   */
  lemma SlugRouteWins(es: seq<Entry>, k: int)
    requires 0 <= k < |es|
    requires es[k].url != IntToString(es[k].index)
    requires forall j :: k < j < |es| ==> es[j].url != es[k].url && IntToString(es[j].index) != es[k].url
    ensures "/" + es[k].url in RouteMap(es)
    ensures RouteMap(es)["/" + es[k].url] == NodeValue(es[k].layout)
  {
    forall j | k < j < |es|
      ensures "/" + es[j].url != "/" + es[k].url && "/" + IntToString(es[j].index) != "/" + es[k].url
    {
      assert ("/" + es[j].url)[1..] == es[j].url;
      assert ("/" + IntToString(es[j].index))[1..] == IntToString(es[j].index);
    }
    RouteAfter(es, k, false);
  }

  /** A page's number route leads to its layout unless a later page's slug or number spells it. */
  lemma NumberRouteWins(es: seq<Entry>, k: int)
    requires 0 <= k < |es|
    requires forall j :: k < j < |es| ==> es[j].url != IntToString(es[k].index) && es[j].index != es[k].index
    ensures "/" + IntToString(es[k].index) in RouteMap(es)
    ensures RouteMap(es)["/" + IntToString(es[k].index)] == NodeValue(es[k].layout)
  {
    forall j | k < j < |es|
      ensures "/" + es[j].url != "/" + IntToString(es[k].index)
      ensures "/" + IntToString(es[j].index) != "/" + IntToString(es[k].index)
    {
      assert ("/" + es[j].url)[1..] == es[j].url;
      assert ("/" + IntToString(es[j].index))[1..] == IntToString(es[j].index);
      if IntToString(es[j].index) == IntToString(es[k].index) {
        IntToStringInjective(es[j].index, es[k].index);
      }
    }
    RouteAfter(es, k, true);
  }

  /**
   * When two pages share a slug the later one owns the slug route: the
   * earlier page's layout is reachable through it only if it is the
   * later page's layout too.
   */
  lemma SharedSlugLaterWins(es: seq<Entry>, j: int, k: int)
    requires 0 <= j < k < |es|
    requires es[j].url == es[k].url
    requires es[k].url != IntToString(es[k].index)
    requires forall l :: k < l < |es| ==> es[l].url != es[k].url && IntToString(es[l].index) != es[k].url
    ensures "/" + es[j].url in RouteMap(es)
    ensures RouteMap(es)["/" + es[j].url] == NodeValue(es[k].layout)
  {
    SlugRouteWins(es, k);
  }

  // ---------------------------------------------------------------------
  // The router
  // ---------------------------------------------------------------------

  /**
   * The layout `display_page` falls back on: `page_not_found(pathname)`
   * when `route_not_found_layout` is unset, the component it holds, or
   * the callable it holds applied to the pathname.  Any other value
   * leaves the fallback unbound, which the final lookup trips over.
   */
  function Fallback(setting: Value, invoke: (nat, string) -> Node, pathname: string): Result<Node> {
    match setting
    case NoneValue => Ok(PageNotFound(pathname))
    case NodeValue(n) => Ok(n)
    case FuncValue(h) => Ok(invoke(h, pathname))
    case _ => Err(FallbackUnbound)
  }

  /** `display_page(pathname)`: `routes.get(pathname, default_layout)`. */
  function DisplayPage(routes: map<string, Value>, setting: Value, invoke: (nat, string) -> Node, pathname: string): Result<Value> {
    var fallback :- Fallback(setting, invoke, pathname);
    Ok(if pathname in routes then routes[pathname] else NodeValue(fallback))
  }

  /**
   * A registered pathname gives its layout and any other the fallback,
   * as long as the fallback setting is usable; an unusable one fails
   * every request, registered or not.
   */
  lemma DisplayPageSpec(routes: map<string, Value>, setting: Value, invoke: (nat, string) -> Node, pathname: string)
    ensures DisplayPage(routes, setting, invoke, pathname).Err? <==>
      !(setting.NoneValue? || setting.NodeValue? || setting.FuncValue?)
    ensures DisplayPage(routes, setting, invoke, pathname).Err? ==>
      DisplayPage(routes, setting, invoke, pathname).error == FallbackUnbound
    ensures DisplayPage(routes, setting, invoke, pathname).Ok? && pathname in routes ==>
      DisplayPage(routes, setting, invoke, pathname).value == routes[pathname]
    ensures pathname !in routes && setting.NoneValue? ==>
      DisplayPage(routes, setting, invoke, pathname) == Ok(NodeValue(PageNotFound(pathname)))
    ensures pathname !in routes && setting.NodeValue? ==>
      DisplayPage(routes, setting, invoke, pathname) == Ok(setting)
    ensures pathname !in routes && setting.FuncValue? ==>
      DisplayPage(routes, setting, invoke, pathname) == Ok(NodeValue(invoke(setting.handler, pathname)))
  {
  }

  // ---------------------------------------------------------------------
  // The index route
  // ---------------------------------------------------------------------

  /**
   * `_set_index_route`: the settings afterwards and the layout of `/`.  A
   * given `index_page_layout` is used as it is; otherwise `first` takes
   * the first page's layout (and records it in the settings), `outline`
   * and `vertical` leave `/` without a layout, and any other type is
   * refused.
   */
  function IndexRoute(settings: Settings, first: Node): Result<(Settings, Value)> {
    var given := Get(settings, "index_page_layout");
    if given != NoneValue then Ok((settings, given))
    else
      var t := Get(settings, "index_page_type");
      if t == StrValue("first") then
        Ok((settings["index_page_layout" := NodeValue(first)], NodeValue(first)))
      else if t == StrValue("outline") || t == StrValue("vertical") then Ok((settings, NoneValue))
      else Err(Validation(BadIndexPageType))
  }

  /** The index route is the given layout, or the first page's, and is refused only for an unknown type. */
  lemma IndexRouteSpec(settings: Settings, first: Node)
    ensures IndexRoute(settings, first).Err? <==>
      Get(settings, "index_page_layout") == NoneValue &&
      Get(settings, "index_page_type") !in {StrValue("first"), StrValue("outline"), StrValue("vertical")}
    ensures IndexRoute(settings, first).Err? ==> IndexRoute(settings, first).error == Validation(BadIndexPageType)
    ensures Get(settings, "index_page_layout") != NoneValue ==>
      IndexRoute(settings, first) == Ok((settings, Get(settings, "index_page_layout")))
    ensures Get(settings, "index_page_layout") == NoneValue && Get(settings, "index_page_type") == StrValue("first") ==>
      IndexRoute(settings, first).Ok? && IndexRoute(settings, first).value.1 == NodeValue(first) &&
      Get(IndexRoute(settings, first).value.0, "index_page_layout") == NodeValue(first)
    ensures IndexRoute(settings, first).Ok? ==>
      IndexRoute(settings, first).value.1 == Get(IndexRoute(settings, first).value.0, "index_page_layout")
    ensures IndexRoute(settings, first).Ok? ==>
      forall k :: k != "index_page_layout" ==> Get(IndexRoute(settings, first).value.0, k) == Get(settings, k)
  {
  }

  // ---------------------------------------------------------------------
  // Assets
  // ---------------------------------------------------------------------

  /** `s.rstrip(c)` */
  function RStrip(s: string, c: char): (r: string)
    ensures |r| <= |s| && r == s[..|r|]
    ensures r == [] || r[|r| - 1] != c
    ensures forall i :: |r| <= i < |s| ==> s[i] == c
  {
    if s == [] || s[|s| - 1] != c then s else RStrip(s[..|s| - 1], c)
  }

  /**
   * `_get_asset_path`: a path starting with `http` is used as it is; any
   * other one is put under the static url path.
   */
  function AssetPath(staticUrlPath: string, path: string): (r: string)
    ensures StartsWith(path, "http") ==> r == path
    ensures !StartsWith(path, "http") ==>
      var cut := |r| - |path| - 1;
      0 <= cut <= |staticUrlPath| && r[cut + 1..] == path && r[cut] == '/' &&
      r[..cut] == staticUrlPath[..cut] && (cut == 0 || r[cut - 1] != '/') &&
      forall i :: cut <= i < |staticUrlPath| ==> staticUrlPath[i] == '/'
  {
    if StartsWith(path, "http") then path
    else RStrip(staticUrlPath, '/') + "/" + path
  }

  /** `chain(*lists)` */
  function Flatten<T>(xss: seq<seq<T>>): seq<T> {
    if xss == [] then [] else Flatten(xss[..|xss| - 1]) + xss[|xss| - 1]
  }

  function TotalSize<T>(xss: seq<seq<T>>): nat {
    if xss == [] then 0 else TotalSize(xss[..|xss| - 1]) + |xss[|xss| - 1]|
  }

  lemma {:induction false} FlattenSize<T>(xss: seq<seq<T>>)
    ensures |Flatten(xss)| == TotalSize(xss)
    decreases |xss|
  {
    if xss != [] {
      FlattenSize(xss[..|xss| - 1]);
    }
  }

  /** Each list sits in the chain right after the lists before it. */
  lemma {:induction false} FlattenAt<T>(xss: seq<seq<T>>, k: int)
    requires 0 <= k < |xss|
    ensures TotalSize(xss[..k]) + |xss[k]| <= |Flatten(xss)|
    ensures Flatten(xss)[TotalSize(xss[..k])..TotalSize(xss[..k]) + |xss[k]|] == xss[k]
    decreases |xss|
  {
    var init := xss[..|xss| - 1];
    FlattenSize(xss);
    FlattenSize(init);
    if k == |xss| - 1 {
      assert xss[..k] == init;
    } else {
      FlattenAt(init, k);
      assert init[..k] == xss[..k];
      var lo := TotalSize(xss[..k]);
      assert Flatten(xss)[lo..lo + |xss[k]|] == Flatten(init)[lo..lo + |xss[k]|];
    }
  }

  /**
   * `all_css_files` / `all_js_files`: the bootstrap files when bootstrap
   * is used, then the story class's files, then Xplorable's own, then
   * each page's in page order.
   */
  function CollectFiles(useBootstrap: Value, bootstrap: Value, own: seq<string>, base: seq<string>, pages: seq<seq<string>>):
    Result<seq<string>>
  {
    var first :- if Truthy(useBootstrap) then Items(bootstrap) else Ok([]);
    Ok(first + own + base + Flatten(pages))
  }

  /**
   * Where each group of files sits among the collected ones: the bootstrap
   * files first (only when bootstrap is used), the story's, Xplorable's,
   * and page `k`'s files right after those of the pages before it.
   */
  lemma CollectFilesOrder(useBootstrap: Value, bootstrap: Value, own: seq<string>, base: seq<string>, pages: seq<seq<string>>, k: int)
    requires 0 <= k < |pages|
    requires CollectFiles(useBootstrap, bootstrap, own, base, pages).Ok?
    ensures var r := CollectFiles(useBootstrap, bootstrap, own, base, pages).value;
      var b := if Truthy(useBootstrap) then Items(bootstrap).value else [];
      var start := |b| + |own| + |base| + TotalSize(pages[..k]);
      |r| == |b| + |own| + |base| + TotalSize(pages) &&
      r[..|b|] == b &&
      r[|b|..|b| + |own|] == own &&
      r[|b| + |own|..|b| + |own| + |base|] == base &&
      start + |pages[k]| <= |r| && r[start..start + |pages[k]|] == pages[k]
  {
    var b := if Truthy(useBootstrap) then Items(bootstrap).value else [];
    assert CollectFiles(useBootstrap, bootstrap, own, base, pages).value == b + own + base + Flatten(pages);
    ChainOrder(b, own, base, pages, k);
  }

  /** The segments of `chain(b, own, base, *pages)`. */
  lemma ChainOrder(b: seq<string>, own: seq<string>, base: seq<string>, pages: seq<seq<string>>, k: int)
    requires 0 <= k < |pages|
    ensures var r := b + own + base + Flatten(pages);
      var start := |b| + |own| + |base| + TotalSize(pages[..k]);
      |r| == |b| + |own| + |base| + TotalSize(pages) &&
      r[..|b|] == b &&
      r[|b|..|b| + |own|] == own &&
      r[|b| + |own|..|b| + |own| + |base|] == base &&
      start + |pages[k]| <= |r| && r[start..start + |pages[k]|] == pages[k]
  {
    var head := b + own + base;
    var tail := Flatten(pages);
    FlattenSize(pages);
    FlattenAt(pages, k);
    HeadParts(b, own, base, tail);
    SliceAfter(head, tail, TotalSize(pages[..k]), TotalSize(pages[..k]) + |pages[k]|);
  }

  /** The first three segments of `b + own + base + tail`. */
  lemma HeadParts<T>(b: seq<T>, own: seq<T>, base: seq<T>, tail: seq<T>)
    ensures var r := b + own + base + tail;
      r[..|b|] == b && r[|b|..|b| + |own|] == own && r[|b| + |own|..|b| + |own| + |base|] == base
  {
  }

  /** A slice of the second part of a concatenation. */
  lemma SliceAfter<T>(a: seq<T>, b: seq<T>, lo: int, hi: int)
    requires 0 <= lo <= hi <= |b|
    ensures (a + b)[|a| + lo..|a| + hi] == b[lo..hi]
  {
  }

  /** Without bootstrap the bootstrap list is never read, so it cannot fail. */
  lemma CollectFilesWithoutBootstrap(useBootstrap: Value, bootstrap: Value, own: seq<string>, base: seq<string>, pages: seq<seq<string>>)
    requires !Truthy(useBootstrap)
    ensures CollectFiles(useBootstrap, bootstrap, own, base, pages) == Ok(own + base + Flatten(pages))
  {
    assert [] + own + base + Flatten(pages) == own + base + Flatten(pages);
  }

  // ---------------------------------------------------------------------
  // The pages of a story
  // ---------------------------------------------------------------------

  /** The page after page `k` of `n`, wrapping round to the first. */
  function Next(k: int, n: int): (j: int)
    requires 0 <= k < n
    ensures 0 <= j < n && j == (k + 1) % n
  {
    if k + 1 == n then 0 else k + 1
  }

  /** The page before page `k` of `n`, wrapping round to the last. */
  function Prev(k: int, n: int): (j: int)
    requires 0 <= k < n
    ensures 0 <= j < n && j == (k - 1 + n) % n && Next(j, n) == k
  {
    if k == 0 then n - 1 else k - 1
  }

  /** The name a block of class `c` reports when it was given none. */
  function PageName(c: BlockClass): string {
    if c.nameAttr.Some? then c.nameAttr.value else Title(c.className)
  }

  /** The url a block of class `c` reports when it was given none. */
  function PageUrl(c: BlockClass): string {
    if c.urlAttr.Some? then c.urlAttr.value else Slugify(PageName(c))
  }

  /** Every class's layout can be built (possibly as an error paragraph). */
  predicate AllBuild(classes: seq<BlockClass>) {
    forall k :: 0 <= k < |classes| ==> InitialLayout(classes[k]).Ok?
  }

  /** The exception that escapes the constructor of the first class that cannot be built. */
  function FirstFailure(classes: seq<BlockClass>): (r: Option<Error>)
    ensures r.None? <==> AllBuild(classes)
  {
    if classes == [] then None
    else if InitialLayout(classes[0]).Err? then Some(InitialLayout(classes[0]).error)
    else
      assert forall k :: 1 <= k < |classes| ==> classes[k] == classes[1..][k - 1];
      FirstFailure(classes[1..])
  }

  /** The failure is that of the first class that cannot be built, whatever follows it. */
  lemma {:induction false} FailureAt(classes: seq<BlockClass>, i: int)
    requires 0 <= i < |classes|
    requires forall k :: 0 <= k < i ==> InitialLayout(classes[k]).Ok?
    requires InitialLayout(classes[i]).Err?
    ensures FirstFailure(classes) == Some(InitialLayout(classes[i]).error)
    decreases i
  {
    if i > 0 {
      FailureAt(classes[1..], i - 1);
    }
  }

  /** What building the page list raises: the first constructor's exception, or, with no pages, closing the ring. */
  function BuildFailure(classes: seq<BlockClass>): Option<Error> {
    if FirstFailure(classes).Some? then FirstFailure(classes)
    else if classes == [] then Some(NoPages)
    else None
  }

  /** How many times a page of class `c` runs its callbacks: once when it defines them. */
  function CallbackCount(c: BlockClass): nat {
    if c.hasCallbacks then 1 else 0
  }

  /** The layout of page `k` once finalised: its built layout hooked up to its name and its neighbours' urls. */
  function FinalLayout(classes: seq<BlockClass>, k: int): Node
    requires AllBuild(classes) && 0 <= k < |classes|
  {
    var n := |classes|;
    Hooked(InitialLayout(classes[k]).value, PageName(classes[k]), PageUrl(classes[Next(k, n)]), PageUrl(classes[Prev(k, n)]))
  }

  /** The url, index and final layout of each page, in order: what the routes are made of. */
  function StoryEntries(classes: seq<BlockClass>): (es: seq<Entry>)
    requires AllBuild(classes)
    ensures |es| == |classes|
  {
    seq(|classes|, k requires 0 <= k < |classes| => Entry(PageUrl(classes[k]), k + 1, FinalLayout(classes, k)))
  }

  /** `nav_items`: each page's url and name, in page order. */
  function NavOf(classes: seq<BlockClass>): (items: seq<(string, string)>)
    ensures |items| == |classes|
  {
    seq(|classes|, k requires 0 <= k < |classes| => (PageUrl(classes[k]), PageName(classes[k])))
  }

  /** No block appears twice. */
  ghost predicate Distinct(pages: seq<Block>) {
    forall i, j :: 0 <= i < j < |pages| ==> pages[i] != pages[j]
  }

  /** Each block's `next_page` is the block after it and its `prev_page` the block before it, round the ring. */
  ghost predicate Ring(pages: seq<Block>)
    reads pages
  {
    |pages| > 0 &&
    (forall k {:trigger pages[k].nextPage} :: 0 <= k < |pages| ==> pages[k].nextPage == pages[Next(k, |pages|)]) &&
    (forall k {:trigger pages[k].prevPage} :: 0 <= k < |pages| ==> pages[k].prevPage == pages[Prev(k, |pages|)])
  }

  /** What constructing a block of each class gives. */
  function Results(classes: seq<BlockClass>): (rs: seq<Result<Node>>)
    ensures |rs| == |classes|
  {
    seq(|classes|, k requires 0 <= k < |classes| => InitialLayout(classes[k]))
  }

  /**
   * Blocks built from `classes`, numbered from 1 and linked into a ring,
   * not yet finalised; `results` are what their constructors built.
   */
  ghost predicate Linked(pages: seq<Block>, classes: seq<BlockClass>, app: App, results: seq<Result<Node>>)
    reads pages
  {
    |pages| == |classes| == |results| && Distinct(pages) && Ring(pages) &&
    forall k :: 0 <= k < |pages| ==> Made(pages[k], classes[k], app, k, results[k])
  }

  /** Block `b` is the `k`-th block as its constructor left it, with `result` the layout it built. */
  ghost predicate Made(b: Block, c: BlockClass, app: App, k: int, result: Result<Node>)
    reads b
  {
    result.Ok? &&
    b.cls == c && b.app == Some(app) && b.index == k + 1 &&
    b.nameMemo.None? && b.urlMemo.None? &&
    b.layout == result.value && b.built == b.layout &&
    b.callbackCalls == CallbackCount(c)
  }

  /** The blocks of a story once `page_list` has finished: linked, and every one finalised. */
  ghost predicate Story(pages: seq<Block>, classes: seq<BlockClass>, app: App)
    reads pages
  {
    |pages| == |classes| && AllBuild(classes) && Distinct(pages) && Ring(pages) &&
    (forall k {:trigger pages[k]} :: 0 <= k < |pages| ==>
      pages[k].cls == classes[k] && pages[k].app == Some(app) && pages[k].index == k + 1 &&
      pages[k].callbackCalls == CallbackCount(classes[k])) &&
    (forall k {:trigger pages[k].TheName()} :: 0 <= k < |pages| ==>
      pages[k].TheName() == PageName(classes[k]) && pages[k].TheUrl() == PageUrl(classes[k])) &&
    (forall k {:trigger pages[k].layout} :: 0 <= k < |pages| ==>
      pages[k].built == InitialLayout(classes[k]).value && pages[k].layout == FinalLayout(classes, k))
  }

  /** Between two states, the blocks changed at most their remembered names and urls, which read the same. */
  twostate predicate MemosOnly(pages: seq<Block>)
    reads pages
  {
    forall k :: 0 <= k < |pages| ==> ViewOf(pages[k]) == old(ViewOf(pages[k]))
  }

  /** Everything about a block the story depends on, with its name and url as it reports them. */
  datatype View = View(layout: Node, built: Node, next: Block?, prev: Block?, calls: nat, name: string, url: string)

  ghost function ViewOf(b: Block): View
    reads b
  {
    View(b.layout, b.built, b.nextPage, b.prevPage, b.callbackCalls, b.TheName(), b.TheUrl())
  }

  /** `page.url` on a block: the block looks the same afterwards. */
  method UrlOf(b: Block) returns (url: string)
    modifies b
    ensures ViewOf(b) == old(ViewOf(b))
    ensures url == b.TheUrl()
  {
    url := b.Url();
  }

  /** A block's url (asked of it), number and layout: the block looks the same afterwards. */
  method EntryOf(b: Block) returns (e: Entry)
    modifies b
    ensures ViewOf(b) == old(ViewOf(b))
    ensures e == Entry(b.TheUrl(), b.index, b.layout)
  {
    var url := UrlOf(b);
    e := Entry(url, b.index, b.layout);
  }

  /** `page.name` on a block: the block looks the same afterwards. */
  method NameOf(b: Block) returns (name: string)
    modifies b
    ensures ViewOf(b) == old(ViewOf(b))
    ensures name == b.TheName()
  {
    name := b.Name();
  }

  /** What the route loop reads off the blocks of a story. */
  ghost function Entries(pages: seq<Block>): (es: seq<Entry>)
    reads pages
    ensures |es| == |pages|
  {
    seq(|pages|, k requires 0 <= k < |pages| reads pages => Entry(pages[k].TheUrl(), pages[k].index, pages[k].layout))
  }

  /** What the `nav_items` loop reads off the blocks: each one's url and name. */
  ghost function NavEntries(pages: seq<Block>): (items: seq<(string, string)>)
    reads pages
    ensures |items| == |pages|
  {
    seq(|pages|, k requires 0 <= k < |pages| reads pages => (pages[k].TheUrl(), pages[k].TheName()))
  }

  /** The blocks of a story show the urls and names the classes determine. */
  lemma StoryNavOf(pages: seq<Block>, classes: seq<BlockClass>, app: App)
    requires Story(pages, classes, app)
    ensures NavEntries(pages) == NavOf(classes)
  {
    forall k | 0 <= k < |pages|
      ensures NavEntries(pages)[k] == NavOf(classes)[k]
    {
      assert pages[k].TheUrl() == PageUrl(classes[k]) && pages[k].TheName() == PageName(classes[k]);
    }
  }

  /** The blocks of a story show the entries the classes determine. */
  lemma StoryEntriesOf(pages: seq<Block>, classes: seq<BlockClass>, app: App)
    requires Story(pages, classes, app)
    ensures Entries(pages) == StoryEntries(classes)
  {
    forall k | 0 <= k < |pages|
      ensures Entries(pages)[k] == StoryEntries(classes)[k]
    {
      assert pages[k].TheUrl() == PageUrl(classes[k]);
      assert pages[k].layout == FinalLayout(classes, k);
    }
  }

  /**
   * The first `|list|` blocks of a story as the first loop of `page_list`
   * leaves them: built from their classes with `results` as their
   * layouts, numbered from 1, each linked to the one before and after it
   * but the ends not yet to each other.
   */
  ghost predicate Chained(list: seq<Block>, classes: seq<BlockClass>, app: App, results: seq<Result<Node>>)
    reads list
  {
    |list| <= |classes| == |results| && Distinct(list) && Path(list) &&
    forall k :: 0 <= k < |list| ==> Made(list[k], classes[k], app, k, results[k])
  }

  /** Each block is linked to the one before and the one after it; the ends to nothing. */
  ghost predicate Path(list: seq<Block>)
    reads list
  {
    (|list| > 0 ==> list[0].prevPage == null && list[|list| - 1].nextPage == null) &&
    forall k :: 0 <= k < |list| - 1 ==> list[k].nextPage == list[k + 1] && list[k + 1].prevPage == list[k]
  }

  /**
   * The first loop of `page_list`: builds a block per class, numbered
   * from 1, linking each to the one before, then closes the ring.  An
   * exception from a constructor escapes; so does closing the ring of a
   * story without pages.
   */
  method CreatePages(classes: seq<BlockClass>, app: App) returns (r: Result<seq<Block>>)
    ensures r.Err? <==> BuildFailure(classes).Some?
    ensures r.Err? ==> r.error == BuildFailure(classes).value
    ensures r.Ok? ==> Linked(r.value, classes, app, Results(classes))
    ensures r.Ok? ==> forall k :: 0 <= k < |r.value| ==> fresh(r.value[k])
  {
    ghost var results := Results(classes);
    var list: seq<Block> := [];
    var prev: Block? := null;
    for i := 0 to |classes|
      invariant |list| == i && Chained(list, classes, app, results)
      invariant forall k :: 0 <= k < i ==> fresh(list[k])
      invariant prev == if i == 0 then null else list[i - 1]
    {
      var made := MakeBlock(classes[i], app, i);
      if made.Err? {
        ChainedBuilt(list, classes, app);
        FailureAt(classes, i);
        return Err(made.error);
      }
      var page := made.value;
      Append(list, page, classes, app, results);
      list := list + [page];
      prev := page;
    }
    ChainedBuilt(list, classes, app);
    if prev == null {
      return Err(NoPages);
    }
    CloseRing(list, classes, app, results);
    return Ok(list);
  }

  /** `cls(app=app, index=k + 1)`: the `k`-th block as its constructor leaves it, unlinked. */
  method MakeBlock(c: BlockClass, app: App, k: int) returns (r: Result<Block>)
    ensures r.Err? <==> InitialLayout(c).Err?
    ensures r.Err? ==> r.error == InitialLayout(c).error
    ensures r.Ok? ==> fresh(r.value) && r.value.nextPage == null && r.value.prevPage == null
    ensures r.Ok? ==> Made(r.value, c, app, k, InitialLayout(c))
  {
    r := Block.New(c, Some(app), k + 1, None, None);
  }

  /** The classes of the blocks made so far all build. */
  lemma ChainedBuilt(list: seq<Block>, classes: seq<BlockClass>, app: App)
    requires Chained(list, classes, app, Results(classes))
    ensures forall k :: 0 <= k < |list| ==> InitialLayout(classes[k]).Ok?
  {
    forall k | 0 <= k < |list|
      ensures InitialLayout(classes[k]).Ok?
    {
      assert Made(list[k], classes[k], app, k, Results(classes)[k]);
    }
  }

  /** One iteration of the first loop: the new block is linked after the last one. */
  method Append(list: seq<Block>, page: Block, ghost classes: seq<BlockClass>, ghost app: App, ghost results: seq<Result<Node>>)
    requires Chained(list, classes, app, results) && |list| < |classes|
    requires page !in list
    requires Made(page, classes[|list|], app, |list|, results[|list|])
    requires page.nextPage == null && page.prevPage == null
    modifies page, if list == [] then {} else {list[|list| - 1]}
    ensures Chained(list + [page], classes, app, results)
  {
    var n := |list|;
    if list != [] {
      var last := list[n - 1];
      page.prevPage := last;
      last.nextPage := page;
    }
    ghost var longer := list + [page];
    assert forall k :: 0 <= k < n ==> longer[k] == list[k] != page;
    forall k | 0 <= k < n
      ensures Made(list[k], classes[k], app, k, results[k])
    {
      assert old(Made(list[k], classes[k], app, k, results[k]));
    }
    forall k | 0 <= k < n
      ensures longer[k].nextPage == longer[k + 1] && longer[k + 1].prevPage == longer[k]
    {
      if k < n - 1 {
        assert list[k] != list[n - 1] && list[k + 1] != page;
      }
    }
    forall i, j | 0 <= i < j < n + 1
      ensures longer[i] != longer[j]
    {
    }
    assert Chained(longer, classes, app, results);
  }

  /** Closing the ring: the last block's next is the first, and the first block's previous the last. */
  method CloseRing(list: seq<Block>, ghost classes: seq<BlockClass>, ghost app: App, ghost results: seq<Result<Node>>)
    requires Chained(list, classes, app, results) && |list| == |classes| > 0
    modifies list[|list| - 1], list[0]
    ensures Linked(list, classes, app, results)
  {
    var n := |list|;
    list[n - 1].nextPage := list[0];
    list[0].prevPage := list[n - 1];
  }

  /**
   * What finalising a ring of blocks works towards: each block's name,
   * url, layout as built and layout once finalised, and its callback count.
   */
  datatype Plan = Plan(names: seq<string>, urls: seq<string>, initial: seq<Node>, final: seq<Node>, calls: seq<nat>)

  /** The plan of the blocks of `classes`. */
  function PlanOf(classes: seq<BlockClass>): (plan: Plan)
    requires AllBuild(classes)
    ensures Planned(plan, |classes|)
  {
    var n := |classes|;
    Plan(seq(n, k requires 0 <= k < n => PageName(classes[k])),
         seq(n, k requires 0 <= k < n => PageUrl(classes[k])),
         seq(n, k requires 0 <= k < n => InitialLayout(classes[k]).value),
         seq(n, k requires 0 <= k < n => FinalLayout(classes, k)),
         seq(n, k requires 0 <= k < n => CallbackCount(classes[k])))
  }

  /** Each final layout is the layout as built, hooked up to the block's name and its neighbours' urls. */
  predicate Planned(plan: Plan, n: nat) {
    |plan.names| == |plan.urls| == |plan.initial| == |plan.final| == |plan.calls| == n &&
    forall k {:trigger plan.final[k]} :: 0 <= k < n ==>
      plan.final[k] == Hooked(plan.initial[k], plan.names[k], plan.urls[Next(k, n)], plan.urls[Prev(k, n)])
  }

  /** A ring whose blocks before `i` are finalised and whose other blocks are as built. */
  ghost predicate FinalisedUpTo(pages: seq<Block>, plan: Plan, i: int)
    reads pages
  {
    |plan.names| == |plan.urls| == |plan.initial| == |plan.final| == |plan.calls| == |pages| && Distinct(pages) && Ring(pages) && 0 <= i <= |pages| &&
    forall k :: 0 <= k < |pages| ==>
      pages[k].TheName() == plan.names[k] && pages[k].TheUrl() == plan.urls[k] &&
      pages[k].built == plan.initial[k] && pages[k].callbackCalls == plan.calls[k] &&
      pages[k].layout == (if k < i then plan.final[k] else plan.initial[k])
  }

  /**
   * The second loop of `page_list`: finalises every block, each only once
   * all the links are in place, so that each layout gets the block's own
   * name and its neighbours' urls.
   */
  method FinaliseAll(pages: seq<Block>, ghost classes: seq<BlockClass>, ghost app: App)
    requires Linked(pages, classes, app, Results(classes))
    modifies pages
    ensures Story(pages, classes, app)
  {
    LinkedPlanned(pages, classes, app);
    ghost var plan := PlanOf(classes);
    for i := 0 to |pages|
      invariant FinalisedUpTo(pages, plan, i)
    {
      FinaliseOne(pages, plan, i);
    }
    PlannedStory(pages, classes, app);
  }

  /** Linked blocks, none finalised yet, follow the plan of their classes. */
  lemma LinkedPlanned(pages: seq<Block>, classes: seq<BlockClass>, app: App)
    requires Linked(pages, classes, app, Results(classes))
    ensures AllBuild(classes) && FinalisedUpTo(pages, PlanOf(classes), 0)
    ensures forall k :: 0 <= k < |pages| ==> pages[k].cls == classes[k] && pages[k].app == Some(app) && pages[k].index == k + 1
  {
    forall k | 0 <= k < |classes|
      ensures InitialLayout(classes[k]).Ok?
    {
      assert Made(pages[k], classes[k], app, k, Results(classes)[k]);
    }
    var plan := PlanOf(classes);
    forall k | 0 <= k < |pages|
      ensures pages[k].TheName() == plan.names[k] && pages[k].TheUrl() == plan.urls[k]
      ensures pages[k].built == plan.initial[k] && pages[k].callbackCalls == plan.calls[k]
      ensures pages[k].layout == plan.initial[k]
      ensures pages[k].cls == classes[k] && pages[k].app == Some(app) && pages[k].index == k + 1
    {
      assert Made(pages[k], classes[k], app, k, Results(classes)[k]);
    }
  }

  /** Blocks that carried out the whole plan of their classes make up their story. */
  lemma PlannedStory(pages: seq<Block>, classes: seq<BlockClass>, app: App)
    requires AllBuild(classes) && FinalisedUpTo(pages, PlanOf(classes), |pages|)
    requires forall k :: 0 <= k < |pages| ==> pages[k].cls == classes[k] && pages[k].app == Some(app) && pages[k].index == k + 1
    ensures Story(pages, classes, app)
  {
    var plan := PlanOf(classes);
    forall k | 0 <= k < |pages|
      ensures pages[k].TheName() == PageName(classes[k]) && pages[k].TheUrl() == PageUrl(classes[k])
      ensures pages[k].built == InitialLayout(classes[k]).value && pages[k].layout == FinalLayout(classes, k)
      ensures pages[k].callbackCalls == CallbackCount(classes[k])
    {
      assert pages[k].layout == plan.final[k];
    }
  }

  /** One iteration of the finalise loop: block `i` is finalised, and no other block changes. */
  method FinaliseOne(pages: seq<Block>, ghost plan: Plan, i: int)
    requires FinalisedUpTo(pages, plan, i) && i < |pages|
    requires plan.final[i] ==
      Hooked(plan.initial[i], plan.names[i], plan.urls[Next(i, |pages|)], plan.urls[Prev(i, |pages|)])
    modifies pages
    ensures FinalisedUpTo(pages, plan, i + 1)
  {
    var n := |pages|;
    var p := pages[i];
    ghost var nx := Next(i, n);
    ghost var pv := Prev(i, n);
    assert p.nextPage == pages[nx] && p.prevPage == pages[pv];
    assert p.TheName() == plan.names[i] && pages[nx].TheUrl() == plan.urls[nx] && pages[pv].TheUrl() == plan.urls[pv];
    assert p.layout == plan.initial[i];
    p.Finalise();
    assert p.layout == plan.final[i];
    assert Ring(pages);
    forall k | 0 <= k < n
      ensures pages[k].TheName() == plan.names[k] && pages[k].TheUrl() == plan.urls[k]
      ensures pages[k].built == plan.initial[k] && pages[k].callbackCalls == plan.calls[k]
      ensures pages[k].layout == (if k < i + 1 then plan.final[k] else plan.initial[k])
    {
      if k != i {
        assert pages[k] != p;
      }
    }
  }

  // ---------------------------------------------------------------------
  // The story
  // ---------------------------------------------------------------------

  /** What a subclass of `Xplorable` defines: its block classes and, when it overrides them, its CSS and JS files. */
  datatype StoryClass = StoryClass(pages: seq<BlockClass>, cssFiles: Attr<seq<string>>, jsFiles: Attr<seq<string>>)

  /** `self.__class__.css_files`: the subclass's own list, or the one it inherits. */
  function OwnFiles(a: Attr<seq<string>>, inherited: seq<string>): seq<string> {
    if a.Present? then a.value else inherited
  }

  /** The CSS files (or, with `css` false, the JS files) each block class names, in page order. */
  function ClassFiles(classes: seq<BlockClass>, css: bool): (files: seq<seq<string>>)
    ensures |files| == |classes|
  {
    seq(|classes|, k requires 0 <= k < |classes| => if css then classes[k].cssFiles else classes[k].jsFiles)
  }

  /** The same, asked of each built block. */
  function PageFiles(pages: seq<Block>, css: bool): (files: seq<seq<string>>)
    ensures |files| == |pages|
  {
    seq(|pages|, k requires 0 <= k < |pages| => if css then pages[k].AllCssFiles() else pages[k].AllJsFiles())
  }

  /** Blocks built from the classes name the same files as their classes. */
  lemma PageFilesOf(pages: seq<Block>, classes: seq<BlockClass>, css: bool)
    requires |pages| == |classes|
    requires forall k :: 0 <= k < |pages| ==> pages[k].cls == classes[k]
    ensures PageFiles(pages, css) == ClassFiles(classes, css)
  {
    forall k | 0 <= k < |pages|
      ensures PageFiles(pages, css)[k] == ClassFiles(classes, css)[k]
    {
      assert pages[k].cls == classes[k];
    }
  }

  /** `all_css_files` of a story with the given settings. */
  function StoryCss(settings: Settings, cls: StoryClass): Result<seq<string>> {
    CollectFiles(Get(settings, "use_bootstrap"), Get(settings, "bootstrap_css_urls"),
      OwnFiles(cls.cssFiles, XPLORABLE_CSS), XPLORABLE_CSS, ClassFiles(cls.pages, true))
  }

  /** `all_js_files` of a story with the given settings. */
  function StoryJs(settings: Settings, cls: StoryClass): Result<seq<string>> {
    CollectFiles(Get(settings, "use_bootstrap"), Get(settings, "bootstrap_js_urls"),
      OwnFiles(cls.jsFiles, XPLORABLE_JS), XPLORABLE_JS, ClassFiles(cls.pages, false))
  }

  /** The external urls registered for the files `paths`, in order. */
  function AssetUrls(staticUrlPath: string, paths: seq<string>): (urls: seq<string>)
    ensures |urls| == |paths|
  {
    seq(|paths|, i requires 0 <= i < |paths| => AssetPath(staticUrlPath, paths[i]))
  }

  /** The registration loops of `_init_app`: one external url per file, in order. */
  method RegisterAssets(staticUrlPath: string, paths: seq<string>) returns (urls: seq<string>)
    ensures urls == AssetUrls(staticUrlPath, paths)
  {
    urls := [];
    for i := 0 to |paths|
      invariant urls == AssetUrls(staticUrlPath, paths[..i])
    {
      assert paths[..i + 1] == paths[..i] + [paths[i]];
      urls := urls + [AssetPath(staticUrlPath, paths[i])];
    }
    assert paths[..|paths|] == paths;
  }

  /** What a constructed story holds: its settings, navigation items, registered CSS and JS urls, and routes. */
  datatype StoryState = StoryState(
    settings: Settings,
    navItems: seq<(string, string)>,
    cssUrls: seq<string>,
    jsUrls: seq<string>,
    routes: map<string, Value>)

  /**
   * Constructing a story, step by step as `__init__` does: the settings,
   * the keyword overrides, the page list (through `nav_items`), the CSS
   * and JS urls, then the index route, which also builds the page routes.
   * The first exception ends it.
   */
  function StoryOutcome(cls: StoryClass, staticUrlPath: string, arg: SettingsArg, kwargs: Settings): Result<StoryState> {
    var base :- BaseSettings(arg);
    AppOutcome(cls, staticUrlPath, Overridden(base, kwargs))
  }

  /** What `_init_app` gives: the navigation items and the registered CSS and JS urls. */
  function InitOutcome(cls: StoryClass, staticUrlPath: string, settings: Settings)
    : Result<(seq<(string, string)>, seq<string>, seq<string>)>
  {
    if BuildFailure(cls.pages).Some? then Err(BuildFailure(cls.pages).value)
    else
      var css :- StoryCss(settings, cls);
      var js :- StoryJs(settings, cls);
      Ok((NavOf(cls.pages), AssetUrls(staticUrlPath, css), AssetUrls(staticUrlPath, js)))
  }

  /** What setting up the app and then the index route gives, from the story's settings. */
  function AppOutcome(cls: StoryClass, staticUrlPath: string, settings: Settings): Result<StoryState> {
    var init :- InitOutcome(cls, staticUrlPath, settings);
    var index :- IndexRoute(settings, FinalLayout(cls.pages, 0));
    Ok(StoryState(index.0, init.0, init.1, init.2, RouteMap(StoryEntries(cls.pages))["/" := index.1]))
  }

  /** `page_list` built from scratch: the blocks created and linked into a ring, then each finalised. */
  method BuildStory(classes: seq<BlockClass>, app: App) returns (r: Result<seq<Block>>)
    ensures r.Err? <==> BuildFailure(classes).Some?
    ensures r.Err? ==> r.error == BuildFailure(classes).value
    ensures r.Ok? ==> Story(r.value, classes, app)
    ensures r.Ok? ==> forall k :: 0 <= k < |r.value| ==> fresh(r.value[k])
  {
    r := CreatePages(classes, app);
    if r.Ok? {
      FinaliseAll(r.value, classes, app);
    }
  }

  /** `nav_items` over the blocks of a story: the url and name its classes give each page. */
  method StoryNav(pages: seq<Block>, ghost classes: seq<BlockClass>, ghost app: App) returns (items: seq<(string, string)>)
    requires Story(pages, classes, app)
    modifies pages
    ensures Story(pages, classes, app)
    ensures items == NavOf(classes)
  {
    StoryNavOf(pages, classes, app);
    items := NavList(pages);
  }

  /** `routes` over the blocks of a story: the route map of the entries its classes give. */
  method StoryRoutes(pages: seq<Block>, ghost classes: seq<BlockClass>, ghost app: App) returns (routes: map<string, Value>)
    requires Story(pages, classes, app)
    modifies pages
    ensures Story(pages, classes, app)
    ensures routes == RouteMap(StoryEntries(classes))
  {
    StoryEntriesOf(pages, classes, app);
    routes := PageRoutes(pages);
  }

  /** The `nav_items` loop over built blocks: each block's url and name, in order. */
  method NavList(pages: seq<Block>) returns (items: seq<(string, string)>)
    modifies pages
    ensures MemosOnly(pages)
    ensures items == old(NavEntries(pages))
  {
    ghost var nav := NavEntries(pages);
    items := [];
    for i := 0 to |pages|
      invariant MemosOnly(pages)
      invariant items == nav[..i]
    {
      var url := UrlOf(pages[i]);
      var name := NameOf(pages[i]);
      assert nav[..i + 1] == nav[..i] + [(url, name)];
      items := items + [(url, name)];
    }
    assert nav[..|pages|] == nav;
  }

  /** The loop of `routes` over built blocks: the slug route, then the number route, of each block in order. */
  method PageRoutes(pages: seq<Block>) returns (routes: map<string, Value>)
    modifies pages
    ensures MemosOnly(pages)
    ensures routes == RouteMap(old(Entries(pages)))
  {
    ghost var es := Entries(pages);
    routes := map[];
    for i := 0 to |pages|
      invariant MemosOnly(pages)
      invariant routes == RouteMap(es[..i])
    {
      var e := EntryOf(pages[i]);
      assert e == es[i];
      RouteMapNext(es, i);
      routes := routes[SlugRoute(e).0 := SlugRoute(e).1];
      routes := routes[NumberRoute(e).0 := NumberRoute(e).1];
    }
    assert es[..|pages|] == es;
  }

  /** Registering one more page's two routes. */
  lemma RouteMapNext(es: seq<Entry>, i: int)
    requires 0 <= i < |es|
    ensures RouteMap(es[..i + 1]) ==
      RouteMap(es[..i])[SlugRoute(es[i]).0 := SlugRoute(es[i]).1][NumberRoute(es[i]).0 := NumberRoute(es[i]).1]
  {
    var before := Registrations(es[..i]);
    var regs := Registrations(es[..i + 1]);
    assert es[..i + 1][..i] == es[..i];
    assert regs == before + [SlugRoute(es[i]), NumberRoute(es[i])];
    var mid := before + [SlugRoute(es[i])];
    assert regs[..|regs| - 1] == mid && mid[..|mid| - 1] == before;
    assert Assign(map[], regs) == Assign(map[], mid)[NumberRoute(es[i]).0 := NumberRoute(es[i]).1];
    assert Assign(map[], mid) == Assign(map[], before)[SlugRoute(es[i]).0 := SlugRoute(es[i]).1];
  }

  class Xplorable {
    const cls: StoryClass
    /** The Dash app the story creates, handed to every block. */
    const app: App
    /** The Flask server's `static_url_path`. */
    const staticUrlPath: string
    var settings: Settings
    /** `_page_list`, once built. */
    var pageMemo: Option<seq<Block>>
    /** `_routes`, once built. */
    var routeMemo: Option<map<string, Value>>
    /** What `nav_items` gave to the main layout. */
    var navItems: seq<(string, string)>
    /** The external CSS urls registered with the app, in order. */
    var cssUrls: seq<string>
    /** The external JS urls registered with the app, in order. */
    var jsUrls: seq<string>

    /** The blocks of the story, once built. */
    function Pages(): seq<Block>
      reads this`pageMemo
    {
      if pageMemo.Some? then pageMemo.value else []
    }

    /** Once built, the page list is the finished story of the class's blocks. */
    ghost predicate Valid()
      reads this`pageMemo, Pages()
    {
      pageMemo.Some? ==> Story(pageMemo.value, cls.pages, app)
    }

    /** What the story holds now. */
    function State(): StoryState
      reads this
    {
      StoryState(settings, navItems, cssUrls, jsUrls, routeMemo.GetOr(map[]))
    }

    /** The part of `__init__` that sets the fields, before the app is set up. */
    constructor (cls: StoryClass, app: App, staticUrlPath: string, settings: Settings)
      ensures this.cls == cls && this.app == app && this.staticUrlPath == staticUrlPath && this.settings == settings
      ensures pageMemo.None? && routeMemo.None? && navItems == [] && cssUrls == [] && jsUrls == []
      ensures Valid()
    {
      this.cls := cls;
      this.app := app;
      this.staticUrlPath := staticUrlPath;
      this.settings := settings;
      pageMemo := None;
      routeMemo := None;
      navItems := [];
      cssUrls := [];
      jsUrls := [];
    }

    /**
     * The `page_list` property: built on first use, when every block is
     * created, linked into a ring and finalised; the same list afterwards.
     */
    method PageList() returns (r: Result<seq<Block>>)
      requires Valid()
      modifies this`pageMemo
      ensures Valid()
      ensures old(pageMemo).Some? ==> pageMemo == old(pageMemo) && r == Ok(pageMemo.value)
      ensures old(pageMemo).None? ==> (r.Err? <==> BuildFailure(cls.pages).Some?)
      ensures r.Err? ==> r.error == BuildFailure(cls.pages).value && pageMemo.None?
      ensures r.Ok? ==> pageMemo == Some(r.value)
      ensures old(pageMemo).None? && r.Ok? ==> forall k :: 0 <= k < |r.value| ==> fresh(r.value[k])
    {
      if pageMemo.Some? {
        return Ok(pageMemo.value);
      }
      r := BuildStory(cls.pages, app);
      if r.Ok? {
        pageMemo := Some(r.value);
      }
    }

    /** The `nav_items` property: each page's url and name, in page order. */
    method NavItems() returns (r: Result<seq<(string, string)>>)
      requires Valid()
      modifies this`pageMemo, Pages()
      ensures Valid()
      ensures r.Err? <==> old(pageMemo).None? && BuildFailure(cls.pages).Some?
      ensures r.Err? ==> r.error == BuildFailure(cls.pages).value && pageMemo.None?
      ensures r.Ok? ==> pageMemo.Some? && r.value == NavOf(cls.pages)
      ensures old(pageMemo).Some? ==> pageMemo == old(pageMemo)
      ensures old(pageMemo).None? && pageMemo.Some? ==> forall k :: 0 <= k < |pageMemo.value| ==> fresh(pageMemo.value[k])
    {
      var pages :- PageList();
      var items := StoryNav(pages, cls.pages, app);
      return Ok(items);
    }

    /**
     * The `routes` property: built on first use from the page list, each
     * page registering its slug route and then its number route; the same
     * dictionary afterwards.
     */
    method Routes() returns (r: Result<map<string, Value>>)
      requires Valid()
      modifies this`pageMemo, this`routeMemo, Pages()
      ensures Valid()
      ensures old(pageMemo).Some? ==> pageMemo == old(pageMemo)
      ensures old(routeMemo).Some? ==> r == Ok(old(routeMemo).value) && routeMemo == old(routeMemo) && pageMemo == old(pageMemo)
      ensures old(routeMemo).None? ==> (r.Err? <==> old(pageMemo).None? && BuildFailure(cls.pages).Some?)
      ensures old(routeMemo).None? && r.Err? ==> r.error == BuildFailure(cls.pages).value && routeMemo.None?
      ensures old(routeMemo).None? && r.Ok? ==>
        pageMemo.Some? && r.value == RouteMap(StoryEntries(cls.pages)) && routeMemo == Some(r.value)
    {
      if routeMemo.Some? {
        return Ok(routeMemo.value);
      }
      var pages :- PageList();
      var routes := BuildRoutes();
      return Ok(routes);
    }

    /** The first use of `routes`, once the page list exists: each page's two routes, remembered. */
    method BuildRoutes() returns (routes: map<string, Value>)
      requires Valid() && pageMemo.Some?
      modifies this`routeMemo, Pages()
      ensures Valid()
      ensures routeMemo == Some(routes) && routes == RouteMap(StoryEntries(cls.pages))
    {
      routes := StoryRoutes(pageMemo.value, cls.pages, app);
      KeepRoutes(routes);
    }

    /** `register_route(route, layout)`: the route now leads to the layout, overwriting any earlier one. */
    method RegisterRoute(route: string, layout: Value) returns (err: Option<Error>)
      requires Valid()
      modifies this`pageMemo, this`routeMemo, Pages()
      ensures Valid()
      ensures old(pageMemo).Some? ==> pageMemo == old(pageMemo)
      ensures err.Some? <==> old(routeMemo).None? && old(pageMemo).None? && BuildFailure(cls.pages).Some?
      ensures err.None? ==> routeMemo.Some?
      ensures err.None? ==> routeMemo.value ==
                            (if old(routeMemo).Some? then old(routeMemo).value else RouteMap(StoryEntries(cls.pages)))[route := layout]
    {
      var routes := Routes();
      if routes.Err? {
        return Some(routes.error);
      }
      KeepRoutes(routes.value[route := layout]);
      return None;
    }

    /** `self._routes = routes`: the story is untouched. */
    method KeepRoutes(routes: map<string, Value>)
      requires Valid()
      modifies this`routeMemo
      ensures Valid() && routeMemo == Some(routes)
    {
      routeMemo := Some(routes);
    }

    /** `all_css_files`, read off the built blocks. */
    function AllCssFiles(): (r: Result<seq<string>>)
      requires Valid() && pageMemo.Some?
      reads this, Pages()
      ensures r == StoryCss(settings, cls)
    {
      PageFilesOf(pageMemo.value, cls.pages, true);
      CollectFiles(Get(settings, "use_bootstrap"), Get(settings, "bootstrap_css_urls"),
        OwnFiles(cls.cssFiles, XPLORABLE_CSS), XPLORABLE_CSS, PageFiles(pageMemo.value, true))
    }

    /** `all_js_files`, read off the built blocks. */
    function AllJsFiles(): (r: Result<seq<string>>)
      requires Valid() && pageMemo.Some?
      reads this, Pages()
      ensures r == StoryJs(settings, cls)
    {
      PageFilesOf(pageMemo.value, cls.pages, false);
      CollectFiles(Get(settings, "use_bootstrap"), Get(settings, "bootstrap_js_urls"),
        OwnFiles(cls.jsFiles, XPLORABLE_JS), XPLORABLE_JS, PageFiles(pageMemo.value, false))
    }

    /** The CSS loop of `_init_app`: every CSS file registered with the app, in order. */
    method RegisterCss() returns (err: Option<Error>)
      requires Valid() && pageMemo.Some?
      modifies this`cssUrls
      ensures Valid()
      ensures StoryCss(settings, cls).Err? ==> err == Some(StoryCss(settings, cls).error) && cssUrls == old(cssUrls)
      ensures StoryCss(settings, cls).Ok? ==> err.None? && cssUrls == AssetUrls(staticUrlPath, StoryCss(settings, cls).value)
    {
      var css := AllCssFiles();
      if css.Err? {
        return Some(css.error);
      }
      cssUrls := RegisterAssets(staticUrlPath, css.value);
      return None;
    }

    /** The JS loop of `_init_app`: every JS file registered with the app, in order. */
    method RegisterJs() returns (err: Option<Error>)
      requires Valid() && pageMemo.Some?
      modifies this`jsUrls
      ensures Valid()
      ensures StoryJs(settings, cls).Err? ==> err == Some(StoryJs(settings, cls).error) && jsUrls == old(jsUrls)
      ensures StoryJs(settings, cls).Ok? ==> err.None? && jsUrls == AssetUrls(staticUrlPath, StoryJs(settings, cls).value)
    {
      var js := AllJsFiles();
      if js.Err? {
        return Some(js.error);
      }
      jsUrls := RegisterAssets(staticUrlPath, js.value);
      return None;
    }

    /**
     * The modelled part of `_init_app`: the navigation items for the main
     * layout (which builds the page list), then the CSS and then the JS
     * urls registered with the app.
     */
    method InitApp() returns (err: Option<Error>)
      requires Valid()
      modifies this`pageMemo, Pages(), this`navItems, this`cssUrls, this`jsUrls
      ensures Valid()
      ensures old(pageMemo).Some? ==> pageMemo == old(pageMemo)
      ensures old(pageMemo).None? && pageMemo.Some? ==> forall k :: 0 <= k < |pageMemo.value| ==> fresh(pageMemo.value[k])
      ensures err.None? ==> pageMemo.Some?
      ensures err.Some? <==> InitOutcome(cls, staticUrlPath, settings).Err?
      ensures err.Some? ==> err.value == InitOutcome(cls, staticUrlPath, settings).error
      ensures err.None? ==> (navItems, cssUrls, jsUrls) == InitOutcome(cls, staticUrlPath, settings).value
    {
      var nav := NavItems();
      if nav.Err? {
        return Some(nav.error);
      }
      KeepNav(nav.value);
      err := RegisterFiles();
    }

    /** `nav_items` handed to the main layout: the story is untouched. */
    method KeepNav(items: seq<(string, string)>)
      requires Valid()
      modifies this`navItems
      ensures Valid() && navItems == items
    {
      navItems := items;
    }

    /** The rest of `_init_app`, once the page list exists: the CSS and then the JS urls registered. */
    method RegisterFiles() returns (err: Option<Error>)
      requires Valid() && pageMemo.Some?
      modifies this`cssUrls, this`jsUrls
      ensures Valid()
      ensures err == (
        if StoryCss(settings, cls).Err? then Some(StoryCss(settings, cls).error)
        else if StoryJs(settings, cls).Err? then Some(StoryJs(settings, cls).error)
        else None)
      ensures err.None? ==> cssUrls == AssetUrls(staticUrlPath, StoryCss(settings, cls).value)
      ensures err.None? ==> jsUrls == AssetUrls(staticUrlPath, StoryJs(settings, cls).value)
    {
      err := RegisterCss();
      if err.Some? {
        return;
      }
      err := RegisterJs();
    }

    /**
     * `_set_index_route`, which runs once the page list is built: settles
     * the index layout and registers it as `/`, after the page routes.
     */
    method SetIndexRoute() returns (err: Option<Error>)
      requires Valid() && pageMemo.Some?
      modifies this`settings, this`pageMemo, this`routeMemo, Pages()
      ensures Valid() && pageMemo == old(pageMemo)
      ensures var index := IndexRoute(old(settings), FinalLayout(cls.pages, 0));
        (index.Err? ==> err == Some(index.error) && settings == old(settings) && routeMemo == old(routeMemo)) &&
        (index.Ok? ==> err.None? && settings == index.value.0 && routeMemo == Some(
          (if old(routeMemo).Some? then old(routeMemo).value else RouteMap(StoryEntries(cls.pages)))["/" := index.value.1]))
    {
      err := SettleIndexLayout();
      if err.Some? {
        return;
      }
      err := RegisterRoute("/", Get(settings, "index_page_layout"));
    }

    /** The first part of `_set_index_route`: the index layout setting, filled in from the type when missing. */
    method SettleIndexLayout() returns (err: Option<Error>)
      requires Valid() && pageMemo.Some?
      modifies this`settings
      ensures Valid()
      ensures var index := IndexRoute(old(settings), FinalLayout(cls.pages, 0));
        (index.Err? ==> err == Some(index.error) && settings == old(settings)) &&
        (index.Ok? ==> err.None? && settings == index.value.0 && Get(settings, "index_page_layout") == index.value.1)
    {
      var pages := pageMemo.value;
      if Get(settings, "index_page_layout") == NoneValue {
        var t := Get(settings, "index_page_type");
        if t == StrValue("first") {
          settings := settings["index_page_layout" := NodeValue(pages[0].layout)];
        } else if t == StrValue("outline") || t == StrValue("vertical") {
        } else {
          return Some(Validation(BadIndexPageType));
        }
      }
      return None;
    }

    /** `_init_app` and then `_set_index_route` on a new story: what `AppOutcome` describes. */
    method Setup() returns (err: Option<Error>)
      requires Valid() && pageMemo.None? && routeMemo.None?
      modifies this`settings, this`pageMemo, this`routeMemo, this`navItems, this`cssUrls, this`jsUrls
      ensures err.Some? <==> AppOutcome(cls, staticUrlPath, old(settings)).Err?
      ensures err.Some? ==> err.value == AppOutcome(cls, staticUrlPath, old(settings)).error
      ensures err.None? ==> Valid() && pageMemo.Some? && routeMemo.Some?
      ensures err.None? ==> State() == AppOutcome(cls, staticUrlPath, old(settings)).value
    {
      err := InitApp();
      if err.Some? {
        return;
      }
      err := SetIndexRoute();
    }

    /**
     * `Xplorable(settings=arg, **kwargs)`: the story as `StoryOutcome`
     * describes it, or the exception that ends its construction.
     */
    static method New(cls: StoryClass, app: App, staticUrlPath: string, arg: SettingsArg, kwargs: Settings)
      returns (r: Result<Xplorable>)
      ensures r.Err? <==> StoryOutcome(cls, staticUrlPath, arg, kwargs).Err?
      ensures r.Err? ==> r.error == StoryOutcome(cls, staticUrlPath, arg, kwargs).error
      ensures r.Ok? ==> fresh(r.value) && r.value.Valid() && r.value.pageMemo.Some? && r.value.routeMemo.Some?
      ensures r.Ok? ==> r.value.cls == cls && r.value.app == app && r.value.staticUrlPath == staticUrlPath
      ensures r.Ok? ==> r.value.State() == StoryOutcome(cls, staticUrlPath, arg, kwargs).value
    {
      var base :- BaseSettings(arg);
      var settings := OverrideSettings(base, kwargs);
      var x := new Xplorable(cls, app, staticUrlPath, settings);
      var err := x.Setup();
      if err.Some? {
        return Err(err.value);
      }
      return Ok(x);
    }

    /** `display_page(pathname)` once the story is constructed; `invoke` applies a callable setting. */
    function Display(invoke: (nat, string) -> Node, pathname: string): Result<Value>
      requires routeMemo.Some?
      reads this
    {
      DisplayPage(routeMemo.value, Get(settings, "route_not_found_layout"), invoke, pathname)
    }
  }
}
