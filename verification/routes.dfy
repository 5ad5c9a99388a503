/**
 * The client's route table: which element each pathname renders, the
 * guard in front of the dashboard, and when the side navigation is shown.
 *
 * A pathname is matched the way react-router v6 compiles a route path into
 * a pattern: anchored at a leading `/`, segment by segment, with any number
 * of trailing slashes accepted, literal segments compared ignoring ASCII
 * case, and a `:type` segment matching any one non-empty segment. An empty
 * segment anywhere but at the end (a doubled `/` inside the path) matches
 * no route.
 */
module Routes {
  import opened Wrappers
  import opened ClientTypes

  const LoginLocation := "/login"
  const RegisterLocation := "/register"
  const DashboardLocation := "/dashboard"

  datatype Page =
    | LoginForm
    | RegisterForm
    | Dashboard
    | Products
    /** The category pages render the same static markup whatever `:type` is bound to. */
    | LengthCategory
    | StyleCategory

  datatype Element = Show(page: Page) | LoadingPlaceholder | Navigate(to: string)

  datatype Route =
    | LoginRoute
    | RegisterRoute
    | DashboardRoute
    | ProductsRoute
    | LengthRoute(lengthType: string)
    | StyleRoute(styleType: string)
    | RootRoute

  /** What `AppRoutes` renders: whether `SideNav` is present, and the matched element (if any). */
  datatype View = View(sideNav: bool, content: Option<Element>)

  /** The pieces of `s` between slashes, empty pieces included. */
  function SplitOnSlash(s: string): (r: seq<string>)
    ensures |r| >= 1
    decreases |s|
  {
    if s == [] then [""]
    else if s[0] == '/' then [""] + SplitOnSlash(s[1..])
    else
      var rest := SplitOnSlash(s[1..]);
      [[s[0]] + rest[0]] + rest[1..]
  }

  /** No piece contains a slash. */
  lemma {:induction false} PiecesSlashFree(s: string)
    ensures forall i | 0 <= i < |SplitOnSlash(s)| :: '/' !in SplitOnSlash(s)[i]
    decreases |s|
  {
    if s != [] {
      PiecesSlashFree(s[1..]);
      if s[0] != '/' {
        var rest := SplitOnSlash(s[1..]);
        assert '/' !in rest[0];
        assert SplitOnSlash(s)[0] == [s[0]] + rest[0];
        forall i | 0 < i < |SplitOnSlash(s)| ensures '/' !in SplitOnSlash(s)[i] {
          assert SplitOnSlash(s)[i] == rest[i];
        }
      } else {
        forall i | 0 < i < |SplitOnSlash(s)| ensures '/' !in SplitOnSlash(s)[i] {
          assert SplitOnSlash(s)[i] == SplitOnSlash(s[1..])[i - 1];
        }
      }
    }
  }

  /** `parts` without its trailing empty strings. */
  function DropTrailingEmpty(parts: seq<string>): (r: seq<string>)
    ensures r <= parts
    ensures r == [] || r[|r| - 1] != ""
    ensures forall i | |r| <= i < |parts| :: parts[i] == ""
  {
    if parts == [] || parts[|parts| - 1] != "" then parts
    else DropTrailingEmpty(parts[..|parts| - 1])
  }

  /** Segments that a pathname can consist of: non-empty and slash-free. */
  predicate ValidSegments(segs: seq<string>) {
    forall i | 0 <= i < |segs| :: segs[i] != "" && '/' !in segs[i]
  }

  /**
   * The segments a pathname is matched on, or `None` when it can match no
   * route: the pathname must start with `/` (an empty pathname is read as
   * `/`), trailing empty pieces are dropped, and any other empty piece
   * fails the match.
   */
  function Segments(pathname: string): (r: Option<seq<string>>)
    ensures r.Some? ==> ValidSegments(r.value)
  {
    var parts := SplitOnSlash(pathname);
    PiecesSlashFree(pathname);
    if parts[0] != "" then None
    else
      var body := DropTrailingEmpty(parts[1..]);
      if "" in body then None else Some(body)
  }

  /** Only slashes. */
  predicate AllSlashes(t: string) {
    forall i | 0 <= i < |t| :: t[i] == '/'
  }

  /** The canonical pathname of a list of segments. */
  function Join(segs: seq<string>): string {
    if segs == [] then "" else "/" + segs[0] + Join(segs[1..])
  }

  /**
   * How a case-insensitive pattern compares a character: ASCII letters
   * without case; no other character is folded onto an ASCII letter.
   */
  function Lower(c: char): char {
    if 'A' <= c <= 'Z' then (c as int - 'A' as int + 'a' as int) as char else c
  }

  function FoldCase(s: string): string {
    seq(|s|, i requires 0 <= i < |s| => Lower(s[i]))
  }

  /** The route matching a pathname's segments, if any; literal segments are compared ignoring ASCII case. */
  function MatchRoute(segs: seq<string>): (r: Option<Route>)
    ensures r == Some(RootRoute) <==> segs == []
    ensures r.Some? && r.value.LengthRoute? ==> |segs| == 2 && FoldCase(segs[0]) == "length" && r.value.lengthType == segs[1]
    ensures r.Some? && r.value.StyleRoute? ==> |segs| == 2 && FoldCase(segs[0]) == "style" && r.value.styleType == segs[1]
    ensures r.None? <==>
              (|| |segs| > 2
               || (|segs| == 1 && FoldCase(segs[0]) !in {"login", "register", "dashboard", "products"})
               || (|segs| == 2 && FoldCase(segs[0]) !in {"length", "style"}))
  {
    if segs == [] then Some(RootRoute)
    else if |segs| == 1 then
      var name := FoldCase(segs[0]);
      if name == "login" then Some(LoginRoute)
      else if name == "register" then Some(RegisterRoute)
      else if name == "dashboard" then Some(DashboardRoute)
      else if name == "products" then Some(ProductsRoute)
      else None
    else if |segs| == 2 then
      var name := FoldCase(segs[0]);
      if name == "length" then Some(LengthRoute(segs[1]))
      else if name == "style" then Some(StyleRoute(segs[1]))
      else None
    else None
  }

  /** `ProtectedRoute`: a placeholder while loading, a redirect to the login page without a user, else the child. */
  function ProtectedRoute(loading: bool, currentUser: Option<User>, child: Page): (e: Element)
    ensures e == Show(child) <==> !loading && currentUser.Some?
    ensures e == LoadingPlaceholder <==> loading
    ensures e == Navigate(LoginLocation) <==> !loading && currentUser.None?
  {
    if loading then LoadingPlaceholder
    else if currentUser.None? then Navigate(LoginLocation)
    else Show(child)
  }

  /** The element a matched route renders. */
  function Render(route: Route, loading: bool, currentUser: Option<User>): Element {
    match route
    case LoginRoute => Show(LoginForm)
    case RegisterRoute => Show(RegisterForm)
    case DashboardRoute => ProtectedRoute(loading, currentUser, Dashboard)
    case ProductsRoute => Show(Products)
    case LengthRoute(_) => Show(LengthCategory)
    case StyleRoute(_) => Show(StyleCategory)
    case RootRoute => Navigate(DashboardLocation)
  }

  /** `isAuthPage`: an exact comparison of the raw pathname. */
  predicate IsAuthPage(pathname: string) {
    pathname == LoginLocation || pathname == RegisterLocation
  }

  /** The element a pathname renders, if any route matches it. */
  function Content(pathname: string, loading: bool, currentUser: Option<User>): Option<Element> {
    var segs := Segments(pathname);
    if segs.None? then None
    else
      var route := MatchRoute(segs.value);
      if route.None? then None else Some(Render(route.value, loading, currentUser))
  }

  /** `AppRoutes`: `SideNav` unless the raw pathname is an auth page, then the matched route's element. */
  function AppRoutes(pathname: string, loading: bool, currentUser: Option<User>): (v: View)
    ensures v.sideNav <==> !IsAuthPage(pathname)
    ensures v.content.None? <==> Segments(pathname).None? || MatchRoute(Segments(pathname).value).None?
  {
    View(!IsAuthPage(pathname), Content(pathname, loading, currentUser))
  }

  /** Only the dashboard depends on the session: every other route renders the same whatever `loading` and the user. */
  lemma OnlyDashboardIsGuarded(route: Route, loading1: bool, user1: Option<User>, loading2: bool, user2: Option<User>)
    ensures route != DashboardRoute ==> Render(route, loading1, user1) == Render(route, loading2, user2)
    ensures Render(DashboardRoute, loading1, user1) == Show(Dashboard) <==> !loading1 && user1.Some?
  {
  }

  /** A slash-free prefix extends the first piece. */
  lemma {:induction false} SplitAfterPrefix(a: string, s: string)
    requires '/' !in a
    ensures SplitOnSlash(a + s) == [a + SplitOnSlash(s)[0]] + SplitOnSlash(s)[1..]
    decreases |a|
  {
    if a == [] {
      var x := SplitOnSlash(s);
      assert a + s == s;
      assert a + x[0] == x[0];
      assert x == [x[0]] + x[1..];
    } else {
      assert (a + s)[0] == a[0];
      assert (a + s)[1..] == a[1..] + s;
      SplitAfterPrefix(a[1..], s);
      assert [a[0]] + (a[1..] + SplitOnSlash(s)[0]) == a + SplitOnSlash(s)[0];
    }
  }

  /** A slash-free piece, alone or followed by what starts with a slash, is one whole piece. */
  lemma SplitPiece(a: string, rest: string)
    requires '/' !in a
    requires rest == "" || rest[0] == '/'
    ensures SplitOnSlash(a + rest) == [a] + SplitOnSlash(rest)[1..]
  {
    SplitAfterPrefix(a, rest);
    if rest != "" {
      assert SplitOnSlash(rest) == [""] + SplitOnSlash(rest[1..]);
    }
    assert a + "" == a;
  }

  lemma SegmentsTail(segs: seq<string>)
    requires segs != [] && ValidSegments(segs)
    ensures ValidSegments(segs[1..])
  {
    forall i | 0 <= i < |segs[1..]|
      ensures segs[1..][i] != "" && '/' !in segs[1..][i]
    {
      assert segs[1..][i] == segs[i + 1];
    }
  }

  /** A leading slash contributes an empty piece. */
  lemma SplitAfterSlash(z: string)
    ensures SplitOnSlash("/" + z) == [""] + SplitOnSlash(z)
  {
    assert ("/" + z)[0] == '/' && ("/" + z)[1..] == z;
  }

  lemma JoinHead(segs: seq<string>)
    ensures Join(segs) == "" || Join(segs)[0] == '/'
  {
  }

  /** `/a` followed by what starts with a slash: an empty piece, then `a`, then the later pieces. */
  lemma SplitOfSegment(a: string, y: string)
    requires '/' !in a
    requires y == "" || y[0] == '/'
    ensures SplitOnSlash("/" + a + y) == [""] + [a] + SplitOnSlash(y)[1..]
  {
    Regroup("/", a, y);
    SplitAfterSlash(a + y);
    SplitPiece(a, y);
  }

  lemma JoinCons(segs: seq<string>, x: string)
    requires segs != []
    ensures Join(segs) + "/" + x == "/" + segs[0] + (Join(segs[1..]) + "/" + x)
  {
    var j := Join(segs[1..]);
    assert Join(segs) == "/" + segs[0] + j;
    assert ("/" + segs[0] + j) + "/" + x == "/" + segs[0] + (j + "/" + x);
  }

  /** The first segment of a canonical pathname followed by `/`, given the pieces of the rest. */
  lemma SplitAfterJoinStep(segs: seq<string>, x: string)
    requires segs != [] && ValidSegments(segs)
    requires SplitOnSlash(Join(segs[1..]) + "/" + x) == [""] + segs[1..] + SplitOnSlash(x)
    ensures SplitOnSlash(Join(segs) + "/" + x) == [""] + segs + SplitOnSlash(x)
  {
    var y := Join(segs[1..]) + "/" + x;
    JoinHead(segs[1..]);
    assert y[0] == '/';
    SplitOfSegment(segs[0], y);
    JoinCons(segs, x);
    assert SplitOnSlash(y)[1..] == segs[1..] + SplitOnSlash(x);
    ListRegroup("", segs[0], segs[1..], SplitOnSlash(x));
    assert [segs[0]] + segs[1..] == segs;
  }

  /** A canonical pathname followed by `/`: an empty leading piece, the segments, then the pieces of what follows. */
  lemma {:induction false} SplitAfterJoin(segs: seq<string>, x: string)
    requires ValidSegments(segs)
    ensures SplitOnSlash(Join(segs) + "/" + x) == [""] + segs + SplitOnSlash(x)
    decreases |segs|
  {
    if segs == [] {
      assert Join(segs) + "/" + x == "/" + x;
      SplitAfterSlash(x);
    } else {
      SegmentsTail(segs);
      SplitAfterJoin(segs[1..], x);
      SplitAfterJoinStep(segs, x);
    }
  }

  lemma {:induction false} JoinSnoc(segs: seq<string>, last: string)
    ensures Join(segs + [last]) == Join(segs) + "/" + last
    decreases |segs|
  {
    if segs == [] {
      assert segs + [last] == [last];
      assert [last][1..] == [];
    } else {
      assert (segs + [last])[0] == segs[0];
      assert (segs + [last])[1..] == segs[1..] + [last];
      JoinSnoc(segs[1..], last);
    }
  }

  /** A run of slashes splits into empty pieces only. */
  lemma {:induction false} SplitOfSlashes(t: string)
    requires AllSlashes(t)
    ensures |SplitOnSlash(t)| == |t| + 1
    ensures forall i | 0 <= i < |SplitOnSlash(t)| :: SplitOnSlash(t)[i] == ""
    decreases |t|
  {
    if t != [] {
      assert AllSlashes(t[1..]) by {
        forall i | 0 <= i < |t[1..]| ensures t[1..][i] == '/' {
          assert t[1..][i] == t[i + 1];
        }
      }
      SplitOfSlashes(t[1..]);
    }
  }

  /** Empty pieces at the end are dropped whatever precedes them. */
  lemma {:induction false} DropBlanks(p: seq<string>, e: seq<string>)
    requires forall i | 0 <= i < |e| :: e[i] == ""
    ensures DropTrailingEmpty(p + e) == DropTrailingEmpty(p)
    decreases |e|
  {
    if e == [] {
      assert p + e == p;
    } else {
      assert (p + e)[|p + e| - 1] == "";
      assert (p + e)[..|p + e| - 1] == p + e[..|e| - 1];
      DropBlanks(p, e[..|e| - 1]);
    }
  }

  /** A pathname whose pieces are an empty one, valid segments, then empty ones, is matched on those segments. */
  lemma SegmentsOfPieces(p: string, segs: seq<string>, blanks: seq<string>)
    requires ValidSegments(segs)
    requires forall i | 0 <= i < |blanks| :: blanks[i] == ""
    requires SplitOnSlash(p) == [""] + segs + blanks
    ensures Segments(p) == Some(segs)
  {
    assert SplitOnSlash(p)[1..] == segs + blanks;
    DropBlanks(segs, blanks);
    assert DropTrailingEmpty(segs) == segs;
  }

  /** The last segment of a canonical pathname is a whole piece. */
  lemma SplitOfJoin(segs: seq<string>)
    requires segs != [] && ValidSegments(segs)
    ensures SplitOnSlash(Join(segs)) == [""] + segs
  {
    var init := segs[..|segs| - 1];
    var last := segs[|segs| - 1];
    assert segs == init + [last];
    assert ValidSegments(init) by {
      forall i | 0 <= i < |init| ensures init[i] != "" && '/' !in init[i] {
        assert init[i] == segs[i];
      }
    }
    JoinSnoc(init, last);
    SplitAfterJoin(init, last);
    SplitPiece(last, "");
    assert last + "" == last;
    assert SplitOnSlash(last) == [last];
    assert [""] + init + [last] == [""] + segs;
  }

  /**
   * Matching accepts the canonical pathname of any valid segments, followed
   * by any number of slashes, and yields exactly those segments.
   */
  lemma SegmentsOfJoin(segs: seq<string>, tail: string)
    requires ValidSegments(segs)
    requires AllSlashes(tail)
    ensures Segments(Join(segs) + tail) == Some(segs)
  {
    if tail == "" {
      assert Join(segs) + tail == Join(segs);
      if segs == [] {
        SegmentsOfPieces("", [], []);
      } else {
        SplitOfJoin(segs);
        SegmentsOfPieces(Join(segs), segs, []);
      }
    } else {
      var rest := tail[1..];
      assert AllSlashes(rest) by {
        forall i | 0 <= i < |rest| ensures rest[i] == '/' {
          assert rest[i] == tail[i + 1];
        }
      }
      assert Join(segs) + tail == Join(segs) + "/" + rest by {
        assert tail == "/" + rest;
      }
      SplitAfterJoin(segs, rest);
      SplitOfSlashes(rest);
      SegmentsOfPieces(Join(segs) + tail, segs, SplitOnSlash(rest));
    }
  }

  lemma ListRegroup(e: string, h: string, t: seq<string>, w: seq<string>)
    ensures [e] + [h] + (t + w) == [e] + ([h] + t) + w
  {
  }

  lemma Regroup(p: string, q: string, r: string)
    ensures p + q + r == p + (q + r)
  {
  }

  /** An empty piece followed by a non-empty one fails the match. */
  lemma InteriorBlankUnmatched(p: string, segs: seq<string>, a: string, more: seq<string>)
    requires a != ""
    requires SplitOnSlash(p) == [""] + segs + [""] + [a] + more
    ensures Segments(p) == None
  {
    var body := DropTrailingEmpty(SplitOnSlash(p)[1..]);
    assert SplitOnSlash(p)[1..] == segs + [""] + [a] + more;
    assert SplitOnSlash(p)[1..][|segs| + 1] == a;
    assert |segs| + 1 < |body|;
    assert body[|segs|] == "";
  }

  /** The pieces of a canonical pathname followed by a doubled slash and a further segment. */
  lemma DoubledSlashRegroup(j: string, a: string, rest: string)
    ensures j + "//" + a + rest == j + "/" + ("/" + a + rest)
  {
    calc {
      j + "//" + a + rest;
      { Regroup(j + "//", a, rest); }
      j + "//" + (a + rest);
      { Regroup(j, "//", a + rest); }
      j + ("//" + (a + rest));
      { assert "//" == "/" + "/"; Regroup("/", "/", a + rest); Regroup("/", a, rest); }
      j + ("/" + ("/" + a + rest));
      { Regroup(j, "/", "/" + a + rest); }
      j + "/" + ("/" + a + rest);
    }
  }

  lemma SplitOfDoubledSlash(segs: seq<string>, a: string, rest: string)
    requires ValidSegments(segs)
    requires '/' !in a
    requires rest == "" || rest[0] == '/'
    ensures SplitOnSlash(Join(segs) + "//" + a + rest) == [""] + segs + [""] + [a] + SplitOnSlash(rest)[1..]
  {
    var q := "/" + a + rest;
    var m := SplitOnSlash(rest)[1..];
    DoubledSlashRegroup(Join(segs), a, rest);
    SplitAfterJoin(segs, q);
    SplitOfSegment(a, rest);
    assert [""] + segs + ([""] + [a] + m) == [""] + segs + [""] + [a] + m;
  }

  /** A doubled slash followed by a further segment matches no route, whatever precedes it. */
  lemma EmptySegmentUnmatched(segs: seq<string>, a: string, rest: string, loading: bool, currentUser: Option<User>)
    requires ValidSegments(segs)
    requires a != "" && '/' !in a
    requires rest == "" || rest[0] == '/'
    ensures Segments(Join(segs) + "//" + a + rest) == None
    ensures AppRoutes(Join(segs) + "//" + a + rest, loading, currentUser).content == None
  {
    SplitOfDoubledSlash(segs, a, rest);
    InteriorBlankUnmatched(Join(segs) + "//" + a + rest, segs, a, SplitOnSlash(rest)[1..]);
  }

  /** A one-segment pathname is matched on that segment. */
  lemma SingleSegment(a: string)
    requires a != "" && '/' !in a
    ensures Segments("/" + a) == Some([a])
  {
    SegmentsOfJoin([a], "");
    assert Join([a]) + "" == "/" + a;
  }

  /** The view of a one-segment pathname whose segment names a route. */
  lemma SingleSegmentView(a: string, loading: bool, currentUser: Option<User>)
    requires a != "" && '/' !in a
    requires MatchRoute([a]).Some?
    ensures AppRoutes("/" + a, loading, currentUser)
         == View(!IsAuthPage("/" + a), Some(Render(MatchRoute([a]).value, loading, currentUser)))
  {
    SingleSegment(a);
  }

  /** `/login` hides the side navigation and shows the login form. */
  lemma LoginPage(loading: bool, currentUser: Option<User>)
    ensures AppRoutes("/" + "login", loading, currentUser) == View(false, Some(Show(LoginForm)))
  {
    assert FoldCase("login") == "login";
    SingleSegmentView("login", loading, currentUser);
  }

  /** `/register` hides the side navigation and shows the registration form. */
  lemma RegisterPage(loading: bool, currentUser: Option<User>)
    ensures AppRoutes("/" + "register", loading, currentUser) == View(false, Some(Show(RegisterForm)))
  {
    assert FoldCase("register") == "register";
    SingleSegmentView("register", loading, currentUser);
  }

  /** `/dashboard` shows the side navigation and the guarded dashboard. */
  lemma DashboardPage(loading: bool, currentUser: Option<User>)
    ensures AppRoutes("/" + "dashboard", loading, currentUser)
         == View(true, Some(ProtectedRoute(loading, currentUser, Dashboard)))
  {
    assert FoldCase("dashboard") == "dashboard";
    SingleSegmentView("dashboard", loading, currentUser);
  }

  /** `/products` is public. */
  lemma ProductsPage(loading: bool, currentUser: Option<User>)
    ensures AppRoutes("/" + "products", loading, currentUser) == View(true, Some(Show(Products)))
  {
    assert FoldCase("products") == "products";
    SingleSegmentView("products", loading, currentUser);
  }

  /** `/`, and a pathname of slashes only, redirects to the dashboard. */
  lemma RootPage(tail: string, loading: bool, currentUser: Option<User>)
    requires AllSlashes(tail)
    ensures AppRoutes("/" + tail, loading, currentUser).content == Some(Navigate(DashboardLocation))
  {
    assert AllSlashes("/" + tail) by {
      forall i | 0 <= i < |"/" + tail| ensures ("/" + tail)[i] == '/' {
        if i > 0 {
          assert ("/" + tail)[i] == tail[i - 1];
        }
      }
    }
    SegmentsOfJoin([], "/" + tail);
    assert Join([]) + ("/" + tail) == "/" + tail;
  }

  /** A two-segment pathname, followed by any number of slashes, is matched on its two segments. */
  lemma TwoSegments(a: string, b: string, tail: string)
    requires a != "" && '/' !in a && b != "" && '/' !in b
    requires AllSlashes(tail)
    ensures Segments("/" + a + "/" + b + tail) == Some([a, b])
  {
    SegmentsOfJoin([a, b], tail);
    assert Join([a, b]) + tail == "/" + a + "/" + b + tail by {
      assert [a, b][0] == a && [a, b][1..] == [b];
      assert Join([b]) == "/" + b by {
        assert [b][1..] == [];
      }
    }
  }

  /** `/length/<t>`, followed by any number of slashes, matches the length route with `type` bound to `t`. */
  lemma LengthPathname(t: string, tail: string)
    requires t != "" && '/' !in t
    requires AllSlashes(tail)
    ensures Segments("/length/" + t + tail) == Some(["length", t])
    ensures MatchRoute(["length", t]) == Some(LengthRoute(t))
    ensures Content("/length/" + t + tail, false, None) == Some(Show(LengthCategory))
  {
    TwoSegments("length", t, tail);
    assert FoldCase("length") == "length";
    assert "/" + "length" + "/" + t + tail == "/length/" + t + tail;
  }

  /** `/style/<t>`, followed by any number of slashes, matches the style route with `type` bound to `t`. */
  lemma StylePathname(t: string, tail: string)
    requires t != "" && '/' !in t
    requires AllSlashes(tail)
    ensures Segments("/style/" + t + tail) == Some(["style", t])
    ensures MatchRoute(["style", t]) == Some(StyleRoute(t))
    ensures Content("/style/" + t + tail, false, None) == Some(Show(StyleCategory))
  {
    TwoSegments("style", t, tail);
    assert FoldCase("style") == "style";
    assert "/" + "style" + "/" + t + tail == "/style/" + t + tail;
  }

  /**
   * `isAuthPage` compares the raw pathname while matching ignores trailing
   * slashes: `/login/` renders the login form with the side navigation shown.
   */
  lemma TrailingSlashAuthPage(loading: bool, currentUser: Option<User>)
    ensures AppRoutes("/" + "login" + "/", loading, currentUser) == View(true, Some(Show(LoginForm)))
  {
    assert FoldCase("login") == "login";
    SegmentsOfJoin(["login"], "/");
    assert Join(["login"]) == "/" + "login" by {
      assert ["login"][1..] == [];
    }
  }

  /** `//login` matches no route: the pattern is anchored at a single leading slash. */
  lemma DoubledLeadingSlash(loading: bool, currentUser: Option<User>)
    ensures AppRoutes("//" + "login", loading, currentUser) == View(true, None)
  {
    EmptySegmentUnmatched([], "login", "", loading, currentUser);
    assert Join([]) + "//" + "login" + "" == "//" + "login";
  }

  /** `/length//x` matches no route: the `:type` segment cannot be empty. */
  lemma DoubledInteriorSlash(loading: bool, currentUser: Option<User>)
    ensures AppRoutes("/" + "length" + "//" + "x", loading, currentUser) == View(true, None)
  {
    EmptySegmentUnmatched(["length"], "x", "", loading, currentUser);
    assert Join(["length"]) == "/" + "length" by {
      assert ["length"][1..] == [];
    }
    assert Join(["length"]) + "//" + "x" + "" == "/" + "length" + "//" + "x";
  }

  /** Literal segments ignore case: `/LOGIN` shows the login form, with the side navigation, since `isAuthPage` is exact. */
  lemma UpperCaseLogin(loading: bool, currentUser: Option<User>)
    ensures AppRoutes("/" + "LOGIN", loading, currentUser) == View(true, Some(Show(LoginForm)))
  {
    assert FoldCase("LOGIN") == "login";
    SingleSegmentView("LOGIN", loading, currentUser);
  }
}
