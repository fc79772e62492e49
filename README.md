# xplore, modelled in Dafny

xplore builds slide-deck style "stories" on top of Dash.
- A story is a subclass of `Xplorable` that lists block classes.
- Each block describes its layout through class attributes:
  - a ready-made `layout`;
  - a `get_layout` method;
  - or a `shape` (rows of Bootstrap column widths) plus `content` to put into the slots of that grid.
- Constructing the story does the following, in order:
  - settles its settings;
  - builds one block per class, numbered from 1, and links the blocks into a ring of `next_page`/`prev_page` neighbours;
  - finalises every block (fills in the title, turns `next-page`/`prev-page` into links);
  - collects the CSS and JS files to serve;
  - registers a route for every block's slug and number, plus the index route `/`.
- A router answers a pathname with the registered layout, or with a fallback.

The model follows the package file by file. Each module is named after the file it models.

| file | module | what it holds |
|---|---|---|
| `utils.py` | `Utils` (utils.dfy) | `slugify`, `camel_case_split` and `camel_case_to_title` over ASCII strings. `camel_case_to_title` is a method with its loop. |
| `layouts.py` | `Layouts` (layouts.dfy) | See below. |
| `components.py` | `Components` (components.dfy) | `Col`, and `Row` with its shape derived from the content. |
| `block.py` | `Blocks` (block.dfy) | `Block`, a class (see below). |
| `page.py` | `Pages` (page.dfy) | `Page`, the older counterpart of `Block`, and its own `slugify`. |
| `xplorable.py` | `Stories` (xplorable.dfy) | `Xplorable`, a class (see below). |

- **`Layouts`** models the grid: column validation, rows with numbered slots `content-1 … content-N`, and `make_block_layout`. It also models `_add_content`, which puts a component, a mapping or a sequence into those slots. `_make_row`, `_add_content` and `make_block_layout` are methods with their loops, each proved against a function.
- **`Blocks.Block`** has fields for the layout, the remembered name and url, and the neighbour links.
  - The constructor, `_add_classes`, `_add_styles`, `_init_callbacks` and the finalise hooks are methods on it.
  - A failed layout becomes an error paragraph.
- **`Stories.Xplorable`** has fields for the settings, the memoised page list and routes, the navigation items and the registered asset urls.
  - `page_list` creates, links and finalises the blocks in two loops (`CreatePages`, `FinaliseAll`).
  - `routes`/`register_route` fill the route map.
  - `_set_index_route` chooses the index route.
  - The keyword-override loop of `__init__` is `OverrideSettings`.
  - `New` is the whole constructor. Its result is tied to the value function `StoryOutcome`.

Helper modules:
- `Base` holds `Option`, and `Attr` (an attribute that a class may or may not define).
- `Errors` holds `Result` and the exceptions, with the messages of the ValidationExceptions.
- `Format` holds `str(int)`, `repr` of an int list, `join`, and `startswith`.
- `Tree` holds the Dash component tree. It models `layout[key]`, `layout[key] = v` and `key in layout`:
  - they search the descendants in document order;
  - a child's id is checked before its subtree;
  - the first match wins;
  - a missing key raises KeyError.

## Model

| member | source | states |
|---|---|---|
| Utils.Slugify | xplore/utils.py:25-33 | the result is a slug: only lower-case letters, digits, `_` and `-`, no whitespace and never `--` |
| Utils.RemoveInvalid | xplore/utils.py:31 | only word characters, whitespace and `-` survive the first substitution |
| Utils.RemoveInvalidFilters | xplore/utils.py:31 | the substitution works character by character: cleaning `a + b` is cleaning `a` then cleaning `b` |
| Utils.RemoveInvalidChar | xplore/utils.py:31 | a single character is kept iff it is a word character, whitespace or `-`, so every valid character survives, in order |
| Utils.CollapseShape | xplore/utils.py:32 | after collapsing, there is no whitespace and no `--`; the result is empty iff the input is; it starts with `-` iff the input starts with a run of `-`/whitespace |
| Utils.CollapseRun | xplore/utils.py:32 | a maximal run of `-`/whitespace after run-free text becomes exactly one `-`, and the text before it is kept |
| Utils.CollapseRunFree | xplore/utils.py:32 | text without `-` or whitespace is left unchanged |
| Utils.CollapseAlphabet | xplore/utils.py:31-32 | collapsing lower-cased valid text introduces no character other than `-` |
| Utils.SlugifyFixesSlugs | xplore/utils.py:26-32 | a slug is left unchanged |
| Utils.SlugifyIdempotent | xplore/utils.py:26-32 | slugifying twice equals slugifying once |
| Utils.StripPadded | xplore/utils.py:31 | `strip()` ignores whitespace added on either side of its argument |
| Utils.SlugifyStrips | xplore/utils.py:26-32 | surrounding whitespace is stripped: padding the input with whitespace on either side gives the same slug |
| Utils.SlugifyWords | xplore/utils.py:25-33 | words of `[A-Za-z0-9_]` separated by single spaces become the lower-cased words joined by single `-` |
| Utils.MatchEnd | xplore/utils.py:37-38 | a lazy match ends at the first position where a camel-case cut or `$` succeeds, without consuming a newline |
| Utils.SplitFrom | xplore/utils.py:37-39 | every part found by `finditer` is non-empty and holds no newline |
| Utils.SplitFromCuts | xplore/utils.py:37 | without newlines, the inner boundaries between parts are exactly the cut positions (lower→upper, or before the capital that starts a word after a capital run) |
| Utils.CamelCaseSplitSpec | xplore/utils.py:36-39 | for a token without newlines: the parts are non-empty, concatenate to the token, and are split exactly at the cut positions |
| Utils.CamelCaseToTitle | xplore/utils.py:42-53 | the loop builds the title words and joins them with single spaces: the result equals `Title(token)` |
| Utils.TitleWordsOnlyRecase | xplore/utils.py:45-52 | one title word per part; first and last kept verbatim; an interior part whose lower-case form is a little word is lower-cased, and every other part is kept verbatim |
| Utils.TitleWordsExample | xplore/utils.py:45-53 | the parts `Layouts`, `And`, `Callbacks` become the title `Layouts and Callbacks` |
| Utils.TitleSpellsToken | xplore/utils.py:42-53 | read without its spaces, the title spells the class name up to letter case |
| Layouts.BadColsSpec | xplore/layouts.py:39-43 | the reported bad widths are exactly the widths outside 1..12; none are reported iff all widths are valid |
| Layouts.EvenColumns | xplore/components.py:22-28 | `n` columns of width `12 / n` (n dividing 12) are valid and sum to 12 |
| Layouts.SlotIdsDiffer | xplore/layouts.py:48-56 | different slot numbers give different `content-<k>` ids |
| Layouts.ColClassWidth | xplore/layouts.py:47 | a valid column's class is `col-lg-` followed by its width, which can be read back |
| Layouts.GridRow | xplore/layouts.py:45-61 | the row has class `row` and `len(cols)` columns; column `i` has class `col-lg-<cols[i]>` and holds the slot `content-<start+i>` |
| Layouts.SetId | xplore/layouts.py:75 | setting by id succeeds iff the id is in the layout, and otherwise raises KeyError for that id |
| Layouts.SetAllMissing | xplore/layouts.py:78-80 | the only error setting a mapping raises is KeyError for one of its keys |
| Layouts.AddContent | xplore/layouts.py:69-89 | the in-place loops of `_add_content` give `Fill(layout, content)` |
| Layouts.ComponentFill | xplore/layouts.py:74-75 | a single component takes the place of `content-1`; a layout without slots raises KeyError for `content-1` |
| Layouts.MappingFill | xplore/layouts.py:78-80 | a mapping from distinct slot ids to slot-free components puts each in its slot and leaves the other slots alone |
| Layouts.SequenceFill | xplore/layouts.py:81-85 | the i-th item replaces `content-<i+1>` and later slots stay; with more items than slots, KeyError for the first missing slot |
| Layouts.MakeRow | xplore/layouts.py:32-66 | the loop of `_make_row` gives `RowLayout`: `cols=None` means `[12]`, bad widths raise, else the row is filled with the content |
| Layouts.OneColumnComponent | xplore/layouts.py:137-138 | `one_col_row(c)` is `c` in a single full-width column |
| Layouts.EvenRowFill | xplore/layouts.py:137-158 | each fixed-width helper uses `n` equal widths summing to 12, and puts the i-th of `n` components in the i-th column |
| Layouts.ShapeErrorNone | xplore/layouts.py:102-105 | a shape is accepted iff every width of every row is in 1..12 |
| Layouts.ShapeErrorFirst | xplore/layouts.py:102-105 | a rejected shape is rejected with the bad widths of its first row that has any |
| Layouts.MakeGridRows | xplore/layouts.py:102-105 | the row loop gives the first row's error, or one grid row per shape row with the slots numbered on across rows |
| Layouts.GridRowStart | xplore/layouts.py:102-105 | row `k` starts at slot `1 +` the number of columns of the rows above it |
| Layouts.MakeBlockLayout | xplore/layouts.py:92-116 | the loop of `make_block_layout` gives `BlockLayout`: `shape=None` means `[[12]]`, there is an optional title row, the grid rows and the `next-page` row, and then the content |
| Layouts.PageIds | xplore/layouts.py:92-111 | a fresh page's ids, in order: `title` iff there is a header, `content-1 … content-N` for the N columns, then `next-page` |
| Layouts.PageIdsDistinct | xplore/layouts.py:97-111 | no id occurs twice in a fresh page |
| Layouts.FrameReplace | xplore/layouts.py:74-85 | replacing the first occurrence of a slot id in a row or page replaces exactly that cell |
| Layouts.PageNotFound | xplore/layouts.py:161-162 | a `P` whose text is `No page '` + pathname + `'` |
| Tree.Find | xplore/block.py:49-53 | `layout[key]` finds something iff `key in layout`, and what it finds has id `key` |
| Tree.Replace | xplore/layouts.py:74-85 | `layout[key] = v` succeeds iff `key in layout`, and the root keeps its own properties |
| Tree.FindAfterReplace | xplore/layouts.py:75-85 | after setting a component that carries the id, looking that id up returns the component |
| Tree.FindAfterWrap | xplore/block.py:52-58 | wrapping the element found under an id in an id-less link leaves it the element found under that id |
| Tree.DescIdsAfterReplace | xplore/block.py:52-58 | replacing an element by one with the same ids keeps the ids of the whole layout |
| Components.PrefixClass | xplore/components.py:50-53 | the class starts with the given one, followed by a space and the caller's class when there is one |
| Components.Col | xplore/components.py:9-14 | a `Div` of class `col-lg-<size>`, then the caller's class if given; every other argument is passed through |
| Components.ColIsColumn | xplore/components.py:45 | the column `Row` builds around a slot is the one `_make_row` builds |
| Components.Row | xplore/components.py:17-60 | the loop of `Row` gives `RowResult` |
| Components.RowShapeDerived | xplore/components.py:18-28 | see the rule below this table |
| Components.RowStructure | xplore/components.py:37-55 | `len(shape)` columns; column `i` has class `col-lg-<shape[i]>` and holds `content-<start+i>`; the row's class is `row` then the caller's class; other arguments unchanged |
| Components.RowRejectsBadColumns | xplore/components.py:30-34 | a shape with a width outside 1..12 is refused, naming exactly those widths |
| Components.RowOfItems | xplore/components.py:21-58 | `n` components and no shape (n dividing 12): the i-th component sits in the i-th of `n` equal columns |
| Components.RowOfComponent | xplore/components.py:18-58 | a single component and no shape: the component in one full-width column |
| Blocks.LayoutPrecedence | xplore/block.py:60-75 | `layout` hides `get_layout`, which hides `shape`+`content`; only a class with none of them is refused |
| Blocks.WithClassesSpec | xplore/block.py:77-85 | without `classes` nothing changes; otherwise the class becomes the classes then the current class, space-joined; nothing but the class changes |
| Blocks.WithStyle | xplore/block.py:87-89 | the block's `style`, when defined, replaces the layout's style; nothing else changes |
| Blocks.InitialLayoutRecovers | xplore/block.py:28-39 | a ValidationException never fails construction: the layout becomes `P(message)`; only other exceptions escape |
| Blocks.TitleHookSpec | xplore/block.py:49-50 | the `title` element gets the name as its children where it stands, and nothing else in the layout changes; a layout without one is left alone |
| Blocks.LinkHookSpec | xplore/block.py:52-58 | the element is wrapped in a link to `href` where it stood: it is still found under its id and the ids are unchanged; a layout without it is left alone |
| Blocks.Block.constructor | xplore/block.py:18-41 | the fields are set; the layout is the built one with classes and style, or the error paragraph; callbacks ran once iff there is an app and the class defines them |
| Blocks.Block.New | xplore/block.py:18-41 | construction fails iff building raised something other than a ValidationException, with that exception |
| Blocks.Block.AddClasses | xplore/block.py:77-85 | the layout becomes `WithClasses` of the old one |
| Blocks.Block.AddStyles | xplore/block.py:87-89 | the layout becomes `WithStyle` of the old one |
| Blocks.Block.InitCallbacks | xplore/block.py:91-93 | the callback count goes up by one iff there is an app and the class defines `callbacks` |
| Blocks.Block.Name | xplore/block.py:115-119 | returns the name; on first use with none given, it is the title of the class name, and it is remembered; name and url never change |
| Blocks.Block.Url | xplore/block.py:109-113 | returns the url and remembers it; name and url never change |
| Blocks.Block.Finalise | xplore/block.py:43-58 | the layout gets the block's name and the neighbours' urls; no block's name or url changes |
| Blocks.Block.AddTitle | xplore/block.py:49-50 | the title hook, with the block's name |
| Blocks.Block.LinkTo | xplore/block.py:52-58 | the link hook, with the neighbour's url; the neighbour's name and url do not change |
| Pages.PageSlugifySpec | xplore/page.py:6-7 | the length of the stripped text, no space, each character lower-cased with each space turned into `-` |
| Pages.PageSlugifyIdempotent | xplore/page.py:6-7 | slugifying a page slug changes nothing |
| Pages.PageSlugifyAgrees | xplore/page.py:6-7 | on space-separated words, the page slug and `utils.slugify` agree |
| Pages.Page.constructor | xplore/page.py:15-26 | the fields are set; callbacks ran once iff there is an app and the class defines them |
| Pages.Page.New | xplore/page.py:15-31 | construction fails with the ValidationException iff the class has no `layout` |
| Pages.Page.ValidateAttrs | xplore/page.py:28-31 | succeeds iff the class defines `layout` |
| Pages.Page.InitCallbacks | xplore/page.py:33-35 | the callback count goes up by one iff there is an app and the class defines `callbacks` |
| Pages.Page.Name | xplore/page.py:57-61 | the class name verbatim unless a name was given; remembered and stable |
| Pages.Page.Url | xplore/page.py:51-55 | the page slug of the name unless a url was given; remembered and stable; a derived url has no space |
| Stories.BaseSettings | xplore/xplorable.py:98-120 | the defaults for no argument, the mapping itself for a mapping, a ValidationException iff the argument has an unsupported type |
| Stories.OverrideSettings | xplore/xplorable.py:122-127 | the override loop gives `Overridden(settings, kwargs)` |
| Stories.OverriddenSpec | xplore/xplorable.py:65-79 | see the rule below this table |
| Stories.OverriddenNothing | xplore/xplorable.py:122-127 | keyword arguments that are all `None` leave the settings as they are |
| Stories.Items | xplore/xplorable.py:278-283 | iterating a list setting gives its items and a string its characters; any other value raises |
| Stories.AssignKeys | xplore/xplorable.py:217-218 | a route is registered iff it was there already or some registration names it |
| Stories.AssignLastWins | xplore/xplorable.py:217-218 | the last registration of a route wins |
| Stories.AssignUntouched | xplore/xplorable.py:217-218 | a route no registration names keeps its layout |
| Stories.RegistrationsAt | xplore/xplorable.py:259-264 | page `k` registers its slug route at step `2k` and its number route at step `2k+1` |
| Stories.RouteMapKeys | xplore/xplorable.py:255-265 | the routes are exactly `'/'+url` and `'/'+str(index)` of each page |
| Stories.RouteAfter | xplore/xplorable.py:255-265 | a page's route leads to its layout when no later registration names the same route |
| Stories.SlugRouteWins | xplore/xplorable.py:259-261 | a page's slug route leads to its layout unless a later page's slug or number, or its own number, spells it |
| Stories.NumberRouteWins | xplore/xplorable.py:263-264 | a page's number route leads to its layout unless a later page's slug or number spells it |
| Stories.SharedSlugLaterWins | xplore/xplorable.py:16-17 | when two pages share a slug, the later one owns the route |
| Stories.DisplayPageSpec | xplore/xplorable.py:163-175 | see the rule below this table |
| Stories.IndexRouteSpec | xplore/xplorable.py:194-210 | see the rule below this table |
| Stories.RStrip | xplore/xplorable.py:215 | the longest prefix that does not end in the character, with only that character removed |
| Stories.AssetPath | xplore/xplorable.py:212-215 | paths starting with `http` unchanged; others become the static url path without trailing `/`, then `/`, then the path |
| Stories.CollectFilesOrder | xplore/xplorable.py:267-302 | bootstrap files first (only when bootstrap is used), then the story class's, then Xplorable's, then each page's in page order |
| Stories.CollectFilesWithoutBootstrap | xplore/xplorable.py:273-283 | without bootstrap, the bootstrap list is never read and collection cannot fail |
| Stories.Next | xplore/xplorable.py:234-243 | the page after page `k` of `n` is `(k+1) mod n` |
| Stories.Prev | xplore/xplorable.py:234-246 | the page before page `k` of `n` is `(k-1) mod n`, and its next page is `k` |
| Stories.FirstFailure | xplore/xplorable.py:230-232 | no failure iff every class can be built |
| Stories.FailureAt | xplore/xplorable.py:230-232 | the failure is that of the first class that cannot be built, whatever follows |
| Stories.MakeBlock | xplore/xplorable.py:232 | `cls(app, k+1)`: fails iff the constructor raises; otherwise a new unlinked block numbered `k+1` |
| Stories.CreatePages | xplore/xplorable.py:227-246 | fails iff a constructor raises or there are no pages; otherwise new, distinct blocks numbered 1..n in a ring (`next` of `k` is `(k+1) mod n`, `prev` is `(k-1) mod n`) |
| Stories.FinaliseAll | xplore/xplorable.py:248-251 | after the loop, every block is finalised with its own name and its ring neighbours' urls |
| Stories.BuildStory | xplore/xplorable.py:224-253 | the page list: the build failure, or new blocks forming the finished story of the classes |
| Stories.NavList | xplore/xplorable.py:304-306 | `(url, name)` of each block in order; blocks change only their remembered names and urls |
| Stories.StoryNav | xplore/xplorable.py:304-306 | over a finished story, the nav items are each class's url and name in page order |
| Stories.PageRoutes | xplore/xplorable.py:258-264 | the loop registers each block's slug route and then its number route, giving `RouteMap` of the blocks' entries |
| Stories.RouteMapNext | xplore/xplorable.py:259-264 | one more page adds its slug route, then its number route |
| Stories.StoryRoutes | xplore/xplorable.py:255-265 | over a finished story, the routes are `RouteMap` of the entries its classes give |
| Stories.RegisterAssets | xplore/xplorable.py:184-192 | one external url per file, `_get_asset_path` of it, in order |
| Stories.Xplorable.constructor | xplore/xplorable.py:98-131 | the fields are set; nothing is built yet |
| Stories.Xplorable.PageList | xplore/xplorable.py:224-253 | built once, when it fails iff a block fails or there are no pages; the same list afterwards |
| Stories.Xplorable.NavItems | xplore/xplorable.py:304-306 | each class's `(url, name)` in page order, building the page list if needed |
| Stories.Xplorable.Routes | xplore/xplorable.py:255-265 | built once from the page list as `RouteMap` of the story's entries; the same map afterwards |
| Stories.Xplorable.BuildRoutes | xplore/xplorable.py:257-264 | the first use of `routes`: the route map of the story, remembered |
| Stories.Xplorable.RegisterRoute | xplore/xplorable.py:217-218 | the route now leads to the layout, overwriting any earlier one; the other routes stay |
| Stories.Xplorable.AllCssFiles | xplore/xplorable.py:267-283 | read off the built blocks, the same as `StoryCss` from the classes |
| Stories.Xplorable.AllJsFiles | xplore/xplorable.py:285-302 | read off the built blocks, the same as `StoryJs` from the classes |
| Stories.Xplorable.RegisterCss | xplore/xplorable.py:184-187 | the registered CSS urls are the asset paths of `all_css_files`, or the error of collecting them |
| Stories.Xplorable.RegisterJs | xplore/xplorable.py:189-192 | the registered JS urls are the asset paths of `all_js_files`, or the error of collecting them |
| Stories.Xplorable.RegisterFiles | xplore/xplorable.py:184-192 | CSS and then JS registered; the first error stops it |
| Stories.Xplorable.InitApp | xplore/xplorable.py:136-192 | nav items, CSS and JS urls as `InitOutcome` says, or its error |
| Stories.Xplorable.SettleIndexLayout | xplore/xplorable.py:198-209 | the index layout setting becomes the first page's layout for `first`; it stays unset for `outline`/`vertical`; any other type raises |
| Stories.Xplorable.SetIndexRoute | xplore/xplorable.py:194-210 | the settings become those `IndexRoute` gives, and `/` is registered after the page routes, or the error |
| Stories.Xplorable.Setup | xplore/xplorable.py:133-134 | `_init_app` then `_set_index_route`: the state `AppOutcome` gives, or its error |
| Stories.Xplorable.New | xplore/xplorable.py:98-134 | construction succeeds iff `StoryOutcome` does; the new story holds exactly the state it gives |

Rules that are too long for the table:

- **Components.RowShapeDerived** (`Row` with no shape):
  - no content, or a single component, gives `[12]`;
  - `n` items with 12 mod n ≠ 0 raise the ValidationException;
  - `n` items with 12 mod n = 0 give `n` copies of `12/n`, which are valid and sum to 12;
  - an empty sequence raises ZeroDivisionError;
  - a value without a length raises TypeError.
- **Stories.OverriddenSpec** (the settings after the keyword overrides):
  - the keys are exactly the old settings plus the known settings given a value other than `None`;
  - those take the keyword value;
  - every other setting keeps its own value.
- **Stories.DisplayPageSpec** (router lookup):
  - a registered pathname gives its layout;
  - otherwise the result is `page_not_found(pathname)`, the configured component, or the configured callable applied to the pathname;
  - a `route_not_found_layout` of any other type fails every request.
- **Stories.IndexRouteSpec** (the index route `/`):
  - a given `index_page_layout` is used as it is;
  - `first` takes the first page's final layout and records it in the settings;
  - an unknown type raises;
  - no other setting changes.

## Left out

- Dash and Flask plumbing is not modelled:
  - creating the Flask server and the Dash app (the `app` and `server` arguments), and the Flask arguments taken from the settings;
  - the app title, `serve_locally` and `supress_callback_exceptions`;
  - registering the router callback;
  - the static route `send_static` and `xplore_base_path`;
  - `append_css`/`append_script`, which are recorded instead as the lists of urls registered.
- The Dash app is an opaque handle passed to every block. The server's `static_url_path` is a parameter.
- Loading a settings module (`importlib`, `inspect`, `sys.path`) is not modelled. A module argument is represented by the settings it would hold: `utils.load_settings`, which the source calls, is not defined in `xplore/utils.py`.
- Settings are a map from names to values, and a missing name reads as `None`. The source mixes `settings[...]` with attribute access on a dict; the model reads both as a lookup.
- Stories.BaseSettings: `isinstance(Mapping)` at `xplorable.py:113` raises TypeError for every argument that is not `None` or a string. The model takes the intended check that the argument is a mapping.
- Stories.Xplorable.InitApp: `layouts.main` takes no arguments (`layouts.py:18`), but `xplorable.py:155` passes the settings and `nav_items`. The model records only the `nav_items` it would receive.
- `layouts.main`, `link`, `nav_li` and `navbar` only build fixed component trees. `nav_li` gives a one-element tuple as its class because of a trailing comma. None of these are modelled.
- Layouts.AddContent: the error branch of `_add_content` formats the undefined name `msg`, which would raise NameError. The model raises the intended ValidationException.
- Components.Row: `components.py` uses `ValidationException` without importing it, and imports `add_content` from `utils`, where it does not exist. The model raises the intended ValidationException and fills the row as `_add_content` does.
- Stories.Xplorable.SettleIndexLayout: the error branch refers to the bare name `index_page_options`, which would raise NameError. The model raises the intended ValidationException with the options listed.
- For `outline` and `vertical`, `/` is registered with no layout (`None`). This TODO of the source is modelled as it is.
- `all_css_files`/`all_js_files` of a block are the class's own files. The `super()` branches in `block.py` and `page.py` never apply. `Page`'s own `all_css_files`/`all_js_files` are not modelled, because a story collects files from its blocks.
- Pages.Page.New: the class's `callbacks` and Blocks.Block's `get_layout` are not run. A `get_layout` method is represented by what it returns, and `callbacks` by a count of its calls.
- Layout trees are values. The source updates components in place, and a class-level `layout` object is shared by every instance of that class, so the source's hooks change the shared object. The model gives every block its own copy and does not capture that aliasing.
- Stories.Xplorable.PageList: on an exception the source has already stored a partial `_page_list`, but the exception ends the constructor, so the model stores nothing.
- Stories.Xplorable.Routes: it and `Display` are stated for a story whose construction finished (`Valid`). `Display` carries no contract of its own; its behaviour is that of `DisplayPage`, which is stated in `DisplayPageSpec`.
- Strings are ASCII:
  - `\w`, `\s`, `str.strip()` and `str.lower()` use their ASCII meanings;
  - Unicode letters, digits and case folding are not modelled.
- Utils.CamelCaseSplitSpec: it and Utils.TitleSpellsToken are stated for tokens without a newline. `SplitFrom` still models `.` not matching a newline and `$` matching before a final newline.
- Layouts.AddContent: content is a component, a mapping or a sequence of components, or another value, which is refused. String content is not modelled: the source fills a string's characters into `content-1`, `content-2`, … (`layouts.py:81-85`), and `Row` takes the string's length (`components.py:22`). Mapping values and sequence items that are strings or other non-component children are not modelled either.
- Stories.OverrideSettings: a mapping passed as `settings` becomes the story's settings object itself (`xplorable.py:114-115`). The override loop and the later write of `index_page_layout` therefore update the caller's dictionary in place. The model treats settings as a value and does not capture that aliasing.
- Shapes are lists of integer widths. A `None` row and non-integer widths are not modelled. Content is one of a component, a mapping, a sequence or another value.
