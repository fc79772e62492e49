/**
 * Pages (xplore/page.py): the older, simpler counterpart of `Block`.  A
 * page's layout is its `layout` class attribute, used as it is; its name
 * defaults to the class name, and its url to a plain slug of the name.
 */
module Pages {
  import opened Base
  import opened Errors
  import opened Tree
  import opened Format
  import opened Utils

  /** The `slugify` of page.py: strip, lower-case, and turn each space into `-`. */
  function PageSlugify(text: string): string {
    var t := Lower(Strip(text));
    seq(|t|, i requires 0 <= i < |t| => if t[i] == ' ' then '-' else t[i])
  }

  /**
   * The slug has the length of the stripped text and no space; each of
   * its characters is the lower-cased character of the stripped text at
   * the same place, a space having become `-`.
   */
  lemma PageSlugifySpec(text: string)
    ensures |PageSlugify(text)| == |Strip(text)|
    ensures ' ' !in PageSlugify(text)
    ensures forall i :: 0 <= i < |Strip(text)| ==>
      PageSlugify(text)[i] == (if Strip(text)[i] == ' ' then '-' else LowerChar(Strip(text)[i]))
    ensures forall i :: 0 <= i < |PageSlugify(text)| ==> !IsUpper(PageSlugify(text)[i])
  {
  }

  /** Lower-casing or turning spaces into `-` keeps a character whitespace only if it was. */
  lemma SlugCharSpace(c: char)
    ensures IsSpace(if c == ' ' then '-' else LowerChar(c)) ==> IsSpace(c) && c != ' '
  {
  }

  /** The page slug of a page slug is itself. */
  lemma PageSlugifyIdempotent(text: string)
    ensures PageSlugify(PageSlugify(text)) == PageSlugify(text)
  {
    var s := PageSlugify(text);
    var t := Strip(text);
    PageSlugifySpec(text);
    if s != [] {
      SlugCharSpace(t[0]);
      SlugCharSpace(t[|t| - 1]);
      StripKeepsTrimmed(s);
      assert Lower(s) == s;
    } else {
      assert Strip(s) == s;
    }
  }

  /**
   * On words of letters, digits and `_` separated by single spaces, the
   * page slug agrees with the general `slugify`: the lower-cased words
   * joined by `-`.
   */
  lemma PageSlugifyAgrees(ws: seq<string>)
    requires |ws| > 0
    requires forall i :: 0 <= i < |ws| ==> IsWord(ws[i])
    ensures PageSlugify(Join(ws, " ")) == Slugify(Join(ws, " ")) == Join(LowerAll(ws), "-")
  {
    SlugifyWords(ws);
    JoinedWordsTrimmed(ws);
    LowerJoin(ws);
    LowerKeepsWords(ws);
    SpacesBecomeDashes(LowerAll(ws));
    PageSlugifyDashed(Join(ws, " "));
  }

  /** Turning the spaces of a space-joined list of words into `-` joins them with `-`. */
  lemma {:induction false} SpacesBecomeDashes(ws: seq<string>)
    requires forall i :: 0 <= i < |ws| ==> IsWord(ws[i])
    ensures Dashed(Join(ws, " ")) == Join(ws, "-")
  {
    if |ws| == 1 {
      NoSpaceInWord(ws[0]);
    } else if |ws| > 1 {
      SpacesBecomeDashes(ws[1..]);
      NoSpaceInWord(ws[0]);
      DashedAppend(ws[0], " " + Join(ws[1..], " "));
      DashedAppend(" ", Join(ws[1..], " "));
    }
  }

  /** Each space of `s` turned into `-`. */
  function Dashed(s: string): string {
    seq(|s|, i requires 0 <= i < |s| => if s[i] == ' ' then '-' else s[i])
  }

  lemma DashedAppend(a: string, b: string)
    ensures Dashed(a + b) == Dashed(a) + Dashed(b)
  {
  }

  lemma NoSpaceInWord(w: string)
    requires IsWord(w)
    ensures Dashed(w) == w
  {
  }

  /** `PageSlugify` is the dashing of the stripped, lower-cased text. */
  lemma PageSlugifyDashed(text: string)
    ensures PageSlugify(text) == Dashed(Lower(Strip(text)))
  {
  }

  /** What a subclass of `Page` defines. */
  datatype PageClass = PageClass(
    className: string,
    nameAttr: Option<string>,
    urlAttr: Option<string>,
    layout: Attr<Node>,
    hasCallbacks: bool,
    cssFiles: seq<string>,
    jsFiles: seq<string>)

  class Page {
    const cls: PageClass
    const app: Option<App>
    const index: int
    /** `_name` */
    var nameMemo: Option<string>
    /** `_url` */
    var urlMemo: Option<string>
    /** How many times `callbacks(app)` has run. */
    ghost var callbackCalls: nat

    /** The value of the `name` property. */
    function TheName(): string
      reads this`nameMemo
    {
      if cls.nameAttr.Some? then cls.nameAttr.value else nameMemo.GetOr(cls.className)
    }

    /** The value of the `url` property. */
    function TheUrl(): string
      reads this`nameMemo, this`urlMemo
    {
      if cls.urlAttr.Some? then cls.urlAttr.value else urlMemo.GetOr(PageSlugify(TheName()))
    }

    /** The layout of the page: its class's `layout` attribute. */
    function Layout(): Node
      requires cls.layout.Present?
    {
      cls.layout.value
    }

    constructor (cls: PageClass, app: Option<App>, index: int, name: Option<string>, url: Option<string>)
      requires cls.layout.Present?
      ensures this.cls == cls && this.app == app && this.index == index
      ensures nameMemo == name && urlMemo == url
      ensures callbackCalls == if app.Some? && cls.hasCallbacks then 1 else 0
    {
      this.cls := cls;
      this.app := app;
      this.index := index;
      nameMemo := name;
      urlMemo := url;
      callbackCalls := 0;
      new;
      InitCallbacks();
    }

    /** `Page(app, index, name, url)`: a class without a `layout` attribute is refused. */
    static method New(cls: PageClass, app: Option<App>, index: int, name: Option<string>, url: Option<string>)
      returns (r: Result<Page>)
      ensures r.Err? <==> cls.layout.Absent?
      ensures r.Err? ==> r.error == Validation(NoPageLayout)
      ensures r.Ok? ==> fresh(r.value) && r.value.cls == cls && r.value.app == app && r.value.index == index
      ensures r.Ok? ==> r.value.nameMemo == name && r.value.urlMemo == url
      ensures r.Ok? ==> r.value.callbackCalls == if app.Some? && cls.hasCallbacks then 1 else 0
    {
      var ok := ValidateAttrs(cls);
      if !ok {
        return Err(Validation(NoPageLayout));
      }
      var p := new Page(cls, app, index, name, url);
      return Ok(p);
    }

    /** `_validate_attrs`: whether the class defines `layout`. */
    static method ValidateAttrs(cls: PageClass) returns (ok: bool)
      ensures ok <==> cls.layout.Present?
    {
      ok := cls.layout.Present?;
    }

    /** `_init_callbacks` */
    method InitCallbacks()
      modifies this`callbackCalls
      ensures callbackCalls == old(callbackCalls) + if app.Some? && cls.hasCallbacks then 1 else 0
    {
      if app.Some? && cls.hasCallbacks {
        callbackCalls := callbackCalls + 1;
      }
    }

    /** The `name` property: the class name itself unless a name was given. */
    method Name() returns (n: string)
      modifies this`nameMemo
      ensures n == TheName() && TheName() == old(TheName()) && TheUrl() == old(TheUrl())
      ensures cls.nameAttr.None? ==> nameMemo == Some(n)
      ensures cls.nameAttr.None? && old(nameMemo).None? ==> n == cls.className
    {
      if cls.nameAttr.Some? {
        return cls.nameAttr.value;
      }
      if nameMemo.None? {
        nameMemo := Some(cls.className);
      }
      n := nameMemo.value;
    }

    /** The `url` property: the page slug of the name unless a url was given. */
    method Url() returns (u: string)
      modifies this`nameMemo, this`urlMemo
      ensures u == TheUrl() && TheUrl() == old(TheUrl()) && TheName() == old(TheName())
      ensures cls.urlAttr.None? ==> urlMemo == Some(u)
      ensures ' ' !in TheUrl() || old(urlMemo).Some? || cls.urlAttr.Some?
    {
      if cls.urlAttr.Some? {
        return cls.urlAttr.value;
      }
      if urlMemo.None? {
        var name := Name();
        PageSlugifySpec(name);
        urlMemo := Some(PageSlugify(name));
      }
      u := urlMemo.value;
    }
  }
}
