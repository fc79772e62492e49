/**
 * Blocks (xplore/block.py): one slide of a story.  A subclass of `Block`
 * describes its layout through class attributes; constructing it builds
 * the layout, adds the block's classes and style, and registers its
 * callbacks.  Once every block of a story exists and is linked to its
 * neighbours, `finalise` fills in the title and turns the `next-page` and
 * `prev-page` elements into links.
 */
module Blocks {
  import opened Base
  import opened Errors
  import opened Tree
  import opened Format
  import opened Utils
  import opened Layouts

  /**
   * What a subclass of `Block` defines.  `name` and `url` class attributes
   * shadow the properties of the same name, so a block that defines one
   * always reports it.  A `get_layout` method is represented by what
   * calling it gives, and `callbacks` only by whether it is defined.
   */
  datatype BlockClass = BlockClass(
    className: string,
    nameAttr: Option<string>,
    urlAttr: Option<string>,
    layout: Attr<Node>,
    getLayout: Attr<Result<Node>>,
    shape: Attr<Option<seq<seq<int>>>>,
    content: Attr<Option<Content>>,
    classes: Attr<seq<string>>,
    style: Attr<Style>,
    hasCallbacks: bool,
    cssFiles: seq<string>,
    jsFiles: seq<string>)

  /**
   * `_get_layout`: a `layout` attribute, else `get_layout()`, else
   * `make_block_layout(shape, content)` when both are defined, else a
   * ValidationException.
   */
  function LayoutSource(c: BlockClass): Result<Node> {
    if c.layout.Present? then Ok(c.layout.value)
    else if c.getLayout.Present? then c.getLayout.value
    else if c.shape.Present? && c.content.Present? then BlockLayout(c.shape.value, c.content.value, true)
    else Err(Validation(NoLayoutSource))
  }

  /** Each source hides the ones after it, and only a class defining none of them is refused. */
  lemma LayoutPrecedence(c: BlockClass)
    ensures c.layout.Present? ==> LayoutSource(c) == Ok(c.layout.value)
    ensures c.layout.Present? ==> forall g, s, x :: LayoutSource(c.(getLayout := g, shape := s, content := x)) == LayoutSource(c)
    ensures c.layout.Absent? && c.getLayout.Present? ==> forall s, x :: LayoutSource(c.(shape := s, content := x)) == c.getLayout.value
    ensures c.layout.Absent? && c.getLayout.Absent? && c.shape.Present? && c.content.Present? ==>
      LayoutSource(c) == BlockLayout(c.shape.value, c.content.value, true)
    ensures LayoutSource(c) == Err(Validation(NoLayoutSource)) <==>
      (c.layout.Absent? && c.getLayout.Absent? && (c.shape.Absent? || c.content.Absent?)) ||
      (c.layout.Absent? && c.getLayout == Present(Err(Validation(NoLayoutSource)))) ||
      (c.layout.Absent? && c.getLayout.Absent? && c.shape.Present? && c.content.Present? &&
       BlockLayout(c.shape.value, c.content.value, true) == Err(Validation(NoLayoutSource)))
  {
  }

  /**
   * `_add_classes`: with `classes` defined, the className becomes those
   * classes followed by the current className, if any, joined by spaces.
   */
  function WithClasses(classes: Attr<seq<string>>, l: Node): Node {
    if classes.Absent? then l
    else l.(className := Some(Join(classes.value + (if l.className.Some? then [l.className.value] else []), " ")))
  }

  /** What `_add_classes` does to the className, and that it touches nothing else. */
  lemma WithClassesSpec(classes: Attr<seq<string>>, l: Node)
    ensures classes.Absent? ==> WithClasses(classes, l) == l
    ensures WithClasses(classes, l).(className := l.className) == l
    ensures classes.Present? && l.className.None? ==> WithClasses(classes, l).className == Some(Join(classes.value, " "))
    ensures classes.Present? && classes.value != [] && l.className.Some? ==>
      WithClasses(classes, l).className == Some(Join(classes.value, " ") + " " + l.className.value)
    ensures classes == Present([]) && l.className.Some? ==> WithClasses(classes, l).className == l.className
  {
    if classes.Present? && classes.value != [] && l.className.Some? {
      JoinAppend(classes.value, l.className.value, " ");
    }
    if classes.Present? && l.className.None? {
      assert classes.value + [] == classes.value;
    }
    if classes == Present([]) && l.className.Some? {
      assert [] + [l.className.value] == [l.className.value];
    }
  }

  /** `_add_styles`: the block's `style`, when it defines one, replaces the layout's style. */
  function WithStyle(style: Attr<Style>, l: Node): (r: Node)
    ensures r.(style := l.style) == l
    ensures style.Present? ==> r.style == Some(style.value)
    ensures style.Absent? ==> r == l
  {
    if style.Present? then l.(style := Some(style.value)) else l
  }

  /** `html.P(str(e))`: what a block shows in place of a layout that could not be built. */
  function ErrorLayout(p: Problem): Node {
    Element("P", None, None, Text(Message(p)))
  }

  /**
   * The layout `__init__` leaves: the built layout with classes and style
   * added, or the error paragraph when building raised a
   * ValidationException.  Other exceptions escape the constructor.
   */
  function InitialLayout(c: BlockClass): Result<Node> {
    match LayoutSource(c)
    case Ok(l) => Ok(WithStyle(c.style, WithClasses(c.classes, l)))
    case Err(e) => if e.Validation? then Ok(ErrorLayout(e.problem)) else Err(e)
  }

  /** A ValidationException never makes construction fail: it becomes a paragraph holding its message. */
  lemma InitialLayoutRecovers(c: BlockClass)
    ensures InitialLayout(c).Err? <==> LayoutSource(c).Err? && !LayoutSource(c).error.Validation?
    ensures InitialLayout(c).Err? ==> InitialLayout(c).error == LayoutSource(c).error
    ensures LayoutSource(c).Err? && LayoutSource(c).error.Validation? ==>
      InitialLayout(c) == Ok(Element("P", None, None, Text(Message(LayoutSource(c).error.problem))))
    ensures c.layout.Absent? && c.getLayout.Absent? && (c.shape.Absent? || c.content.Absent?) ==>
      InitialLayout(c) == Ok(Element("P", None, None, Text(Message(NoLayoutSource))))
  {
  }

  /** `dcc.Link(target, href=href)` */
  function Link(target: Node, href: string): Node {
    Node("Link", None, None, None, Some(href), One(target))
  }

  /** `if 'title' in layout: layout['title'].children = name` */
  function TitleHook(l: Node, name: string): Node {
    match SetChildren(l, "title", Text(name))
    case Some(r) => r
    case None => l
  }

  /** `if key in layout: layout[key] = dcc.Link(layout[key], href=href)` */
  function LinkHook(l: Node, key: string, href: string): Node {
    if Contains(l, key) then Replace(l, key, Link(Find(l, key).value, href)).value else l
  }

  /** `_add_layout_hooks`, given the block's name and the urls of its neighbours. */
  function Hooked(l: Node, name: string, nextUrl: string, prevUrl: string): Node {
    LinkHook(LinkHook(TitleHook(l, name), "next-page", nextUrl), "prev-page", prevUrl)
  }

  /**
   * The title element gets the name as its children, in place, and nothing
   * else in the layout changes; a layout without one is left alone.
   */
  lemma TitleHookSpec(l: Node, name: string)
    ensures !Contains(l, "title") ==> TitleHook(l, name) == l
    ensures Contains(l, "title") ==>
      Replace(l, "title", Find(l, "title").value.(children := Text(name))) == Some(TitleHook(l, name))
    ensures Contains(l, "title") ==>
      Contains(TitleHook(l, name), "title") &&
      Find(TitleHook(l, name), "title") == Some(Find(l, "title").value.(children := Text(name)))
  {
    if Contains(l, "title") {
      var t := Find(l, "title").value;
      FindAfterReplace(l, "title", t.(children := Text(name)));
    }
  }

  /**
   * A linked element is put inside a link to `href` where it stood: it is
   * still the element found under its id, and the layout has the same ids
   * in the same order.  A layout without it is left alone.
   */
  lemma LinkHookSpec(l: Node, key: string, href: string)
    ensures !Contains(l, key) ==> LinkHook(l, key, href) == l
    ensures Contains(l, key) ==>
      Replace(l, key, Link(Find(l, key).value, href)) == Some(LinkHook(l, key, href)) &&
      Find(LinkHook(l, key, href), key) == Find(l, key) &&
      DescIds(LinkHook(l, key, href)) == DescIds(l)
  {
    if Contains(l, key) {
      var t := Find(l, key).value;
      FindAfterWrap(l, key, Link(t, href));
      assert AllIds(Link(t, href)) == AllIds(t);
      DescIdsAfterReplace(l, key, Link(t, href));
    }
  }

  class Block {
    const cls: BlockClass
    const app: Option<App>
    const index: int
    /** `_name`, set by the constructor or on first use of `name`. */
    var nameMemo: Option<string>
    /** `_url`, set by the constructor or on first use of `url`. */
    var urlMemo: Option<string>
    var layout: Node
    var nextPage: Block?
    var prevPage: Block?
    /** The layout as the constructor left it. */
    ghost var built: Node
    /** How many times `callbacks(app)` has run. */
    ghost var callbackCalls: nat

    /** The value of the `name` property, now and from now on. */
    function TheName(): string
      reads this`nameMemo
    {
      if cls.nameAttr.Some? then cls.nameAttr.value else nameMemo.GetOr(Title(cls.className))
    }

    /** The value of the `url` property, now and from now on. */
    function TheUrl(): string
      reads this`nameMemo, this`urlMemo
    {
      if cls.urlAttr.Some? then cls.urlAttr.value else urlMemo.GetOr(Slugify(TheName()))
    }

    /**
     * `Block(app, index, name, url)` for a class whose layout can be
     * built, or whose building raises only a ValidationException.
     */
    constructor (cls: BlockClass, app: Option<App>, index: int, name: Option<string>, url: Option<string>)
      requires InitialLayout(cls).Ok?
      ensures this.cls == cls && this.app == app && this.index == index
      ensures nameMemo == name && urlMemo == url
      ensures layout == InitialLayout(cls).value && built == layout
      ensures nextPage == null && prevPage == null
      ensures callbackCalls == if app.Some? && cls.hasCallbacks then 1 else 0
    {
      this.cls := cls;
      this.app := app;
      this.index := index;
      nameMemo := name;
      urlMemo := url;
      nextPage := null;
      prevPage := null;
      callbackCalls := 0;
      new;
      var source := LayoutSource(cls);
      if source.Ok? {
        layout := source.value;
        AddClasses();
        AddStyles();
      } else {
        layout := ErrorLayout(source.error.problem);
      }
      built := layout;
      InitCallbacks();
    }

    /** Constructing a block: the exceptions other than ValidationException escape. */
    static method New(cls: BlockClass, app: Option<App>, index: int, name: Option<string>, url: Option<string>)
      returns (r: Result<Block>)
      ensures r.Err? <==> InitialLayout(cls).Err?
      ensures r.Err? ==> r.error == InitialLayout(cls).error
      ensures r.Ok? ==> fresh(r.value)
      ensures r.Ok? ==> r.value.cls == cls && r.value.app == app && r.value.index == index
      ensures r.Ok? ==> r.value.nameMemo == name && r.value.urlMemo == url
      ensures r.Ok? ==> r.value.layout == InitialLayout(cls).value && r.value.built == r.value.layout
      ensures r.Ok? ==> r.value.nextPage == null && r.value.prevPage == null
      ensures r.Ok? ==> r.value.callbackCalls == if app.Some? && cls.hasCallbacks then 1 else 0
    {
      var initial := InitialLayout(cls);
      if initial.Err? {
        return Err(initial.error);
      }
      var b := new Block(cls, app, index, name, url);
      return Ok(b);
    }

    /** `_add_classes` */
    method AddClasses()
      modifies this`layout
      ensures layout == WithClasses(cls.classes, old(layout))
    {
      if cls.classes.Present? {
        var newClasses := cls.classes.value;
        assert newClasses + [] == newClasses;
        if layout.className.Some? {
          newClasses := cls.classes.value + [layout.className.value];
        }
        layout := layout.(className := Some(Join(newClasses, " ")));
      }
    }

    /** `_add_styles` */
    method AddStyles()
      modifies this`layout
      ensures layout == WithStyle(cls.style, old(layout))
    {
      if cls.style.Present? {
        layout := layout.(style := Some(cls.style.value));
      }
    }

    /** `_init_callbacks`: runs `callbacks(app)` when there is an app and the class defines `callbacks`. */
    method InitCallbacks()
      modifies this`callbackCalls
      ensures callbackCalls == old(callbackCalls) + if app.Some? && cls.hasCallbacks then 1 else 0
    {
      if app.Some? && cls.hasCallbacks {
        callbackCalls := callbackCalls + 1;
      }
    }

    /**
     * The `name` property: a `name` class attribute, else the name given
     * to the constructor, else the class name as a title, remembered.
     */
    method Name() returns (n: string)
      modifies this`nameMemo
      ensures n == TheName() && TheName() == old(TheName()) && TheUrl() == old(TheUrl())
      ensures cls.nameAttr.None? ==> nameMemo == Some(n)
      ensures cls.nameAttr.None? && old(nameMemo).None? ==> n == Title(cls.className)
      ensures cls.nameAttr.None? && old(nameMemo).Some? ==> n == old(nameMemo).value
    {
      if cls.nameAttr.Some? {
        return cls.nameAttr.value;
      }
      if nameMemo.None? {
        var title := CamelCaseToTitle(cls.className);
        nameMemo := Some(title);
      }
      n := nameMemo.value;
    }

    /**
     * The `url` property: a `url` class attribute, else the url given to
     * the constructor, else the slug of the name, remembered.
     */
    method Url() returns (u: string)
      modifies this`nameMemo, this`urlMemo
      ensures u == TheUrl() && TheUrl() == old(TheUrl()) && TheName() == old(TheName())
      ensures cls.urlAttr.None? ==> urlMemo == Some(u)
    {
      if cls.urlAttr.Some? {
        return cls.urlAttr.value;
      }
      if urlMemo.None? {
        var name := Name();
        urlMemo := Some(Slugify(name));
      }
      u := urlMemo.value;
    }

    /**
     * `finalise`: fills the title with the block's name and links the
     * `next-page` and `prev-page` elements to the neighbours' urls.  Names
     * and urls read on the way are remembered, so none of them changes.
     */
    method Finalise()
      requires nextPage != null && prevPage != null
      modifies this`layout, this`nameMemo, this`urlMemo
      modifies nextPage`nameMemo, nextPage`urlMemo, prevPage`nameMemo, prevPage`urlMemo
      ensures layout == Hooked(old(layout), old(TheName()), old(nextPage.TheUrl()), old(prevPage.TheUrl()))
      ensures TheName() == old(TheName()) && TheUrl() == old(TheUrl())
      ensures nextPage.TheName() == old(nextPage.TheName()) && nextPage.TheUrl() == old(nextPage.TheUrl())
      ensures prevPage.TheName() == old(prevPage.TheName()) && prevPage.TheUrl() == old(prevPage.TheUrl())
    {
      var l := AddTitle(layout);
      l := LinkTo(l, "next-page", nextPage);
      l := LinkTo(l, "prev-page", prevPage);
      layout := l;
    }

    /** The title part of `_add_layout_hooks`, reading `name` only when there is a title. */
    method AddTitle(l: Node) returns (r: Node)
      modifies this`nameMemo
      ensures r == TitleHook(l, old(TheName()))
      ensures TheName() == old(TheName()) && TheUrl() == old(TheUrl())
    {
      r := l;
      if Contains(l, "title") {
        var name := Name();
        r := SetChildren(l, "title", Text(name)).value;
      }
    }

    /** A link part of `_add_layout_hooks`, reading the neighbour's `url` only when the element is there. */
    static method LinkTo(l: Node, key: string, neighbour: Block) returns (r: Node)
      modifies neighbour`nameMemo, neighbour`urlMemo
      ensures r == LinkHook(l, key, old(neighbour.TheUrl()))
      ensures neighbour.TheName() == old(neighbour.TheName()) && neighbour.TheUrl() == old(neighbour.TheUrl())
    {
      r := l;
      if Contains(l, key) {
        var href := neighbour.Url();
        r := Replace(l, key, Link(Find(l, key).value, href)).value;
      }
    }

    /** `all_css_files`: the class's own CSS files. */
    function AllCssFiles(): seq<string> {
      cls.cssFiles
    }

    /** `all_js_files`: the class's own JS files. */
    function AllJsFiles(): seq<string> {
      cls.jsFiles
    }
  }
}
