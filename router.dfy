/**
  Route classification in `handleRequest`: which branch a request takes,
  from its method, its URL path and the configured base path. Matching is
  done on the lower-cased path with one trailing `/` removed; an
  announcement id is the last `/`-segment of the path as sent.
 */
module Router {
  import opened Text
  import opened Types

  datatype Route =
    | Logout                 // clear the cookie and redirect, no auth check
    | Root                   // the bare root path: 204
    | Forbidden              // outside the base path: 403
    | ListView               // the base path itself
    | AdminView              // <base>/admin
    | ApiList                // GET <base>/api/announcements
    | ApiGet(id: string)     // GET <base>/api/announcements/<id>
    | ApiCreate              // POST <base>/api/announcements
    | ApiUpdate(id: string)  // PUT <base>/api/announcements/<id>
    | ApiDelete(id: string)  // DELETE <base>/api/announcements/<id>
    | NoRoute                // inside the base path but matching nothing: 204
  {
    /** The route with any announcement id blanked out. */
    function Endpoint(): Route {
      match this
      case ApiGet(_) => ApiGet("")
      case ApiUpdate(_) => ApiUpdate("")
      case ApiDelete(_) => ApiDelete("")
      case _ => this
    }

    predicate NeedsAuth() {
      !(Logout? || Root? || Forbidden? || NoRoute?)
    }
  }

  /** The path with its case folded and one trailing `/` removed. */
  function MatchForm(path: string): string {
    StripTrailingSlash(Lower(path))
  }

  predicate IsLogoutPath(path: string, cfg: Config) {
    var logout := Lower(cfg.Base() + "/logout");
    Lower(path) == logout || Lower(path) == logout + "/"
  }

  function Classify(verb: string, path: string, cfg: Config): Route {
    if IsLogoutPath(path, cfg) then Logout
    else if path == "/" || path == "" then Root
    else Dispatch(verb, MatchForm(path), MatchForm(cfg.Base()), LastSegment(path))
  }

  /** The route tests, in order, on the match form `p` of the path and `b` of the base. */
  function Dispatch(verb: string, p: string, b: string, id: string): Route {
    if p != b && !StartsWith(p, b + "/") then Forbidden
    else if p == b then ListView
    else if p == b + "/admin" then AdminView
    else if p == b + "/api/announcements" && verb == "GET" then ApiList
    else if verb == "GET" && StartsWith(p, b + "/api/announcements/") then ApiGet(id)
    else if p == b + "/api/announcements" && verb == "POST" then ApiCreate
    else if verb == "PUT" && StartsWith(p, b + "/api/announcements/") then ApiUpdate(id)
    else if verb == "DELETE" && StartsWith(p, b + "/api/announcements/") then ApiDelete(id)
    else NoRoute
  }

  /** The id only fills in a route chosen from the match forms. */
  lemma DispatchIgnoresId(verb: string, p: string, b: string, id: string)
    ensures Dispatch(verb, p, b, id).Endpoint() == Dispatch(verb, p, b, "").Endpoint()
    ensures var r := Dispatch(verb, p, b, id);
            (r.ApiGet? || r.ApiUpdate? || r.ApiDelete?) ==> r.id == id && StartsWith(p, b + "/api/announcements/")
  {
  }

  // ---------------------------------------------------------------------------
  // Properties

  /** The logout path, in any case and with or without a trailing `/`, is recognised before anything else. */
  lemma LogoutFirst(verb: string, path: string, cfg: Config)
    requires Lower(path) == Lower(cfg.Base()) + "/logout" || Lower(path) == Lower(cfg.Base()) + "/logout/"
    ensures Classify(verb, path, cfg) == Logout
  {
    LowerConcat(cfg.Base(), "/logout");
    LowerFixed("/logout");
    assert IsLogoutPath(path, cfg);
  }

  /**
    The logout test appends `/logout` to the base without normalising it:
    with the default base `/` the logout path is `//logout`.
   */
  lemma DefaultBaseLogoutPath(verb: string, cfg: Config)
    requires cfg.homeUrl == ""
    ensures Classify(verb, "//logout", cfg) == Logout
  {
    LowerFixed("/");
    LowerFixed("//logout");
    LogoutFirst(verb, "//logout", cfg);
  }

  /** ... and `/logout` itself falls through to the 204 of an unmatched path. */
  lemma DefaultBaseMissesLogout(verb: string, cfg: Config)
    requires cfg.homeUrl == ""
    ensures Classify(verb, "/logout", cfg) == NoRoute
  {
    LowerFixed("/");
    LowerFixed("/logout");
    assert !IsLogoutPath("/logout", cfg) by {
      assert |Lower(cfg.Base() + "/logout")| == 8;
    }
    assert MatchForm("/") == "";
    assert MatchForm("/logout") == "/logout";
    LogoutUnderEmptyBase(verb, LastSegment("/logout"));
  }

  lemma LogoutUnderEmptyBase(verb: string, id: string)
    ensures Dispatch(verb, "/logout", "", id) == NoRoute
  {
    assert !StartsWith("/logout", "/api/announcements/");
  }

  /**
    With the default base, `/api/login` is no route either: it needs no
    authorisation, so the JSON reply of a login through that path is never sent.
  */
  lemma DefaultBaseApiLoginUnrouted(verb: string, cfg: Config)
    requires cfg.homeUrl == ""
    ensures Classify(verb, "/api/login", cfg) == NoRoute
    ensures !Classify(verb, "/api/login", cfg).NeedsAuth()
  {
    LowerFixed("/");
    LowerFixed("/api/login");
    assert !IsLogoutPath("/api/login", cfg) by {
      assert |Lower(cfg.Base() + "/logout")| == 8;
    }
    assert MatchForm("/") == "";
    assert MatchForm("/api/login") == "/api/login";
    ApiLoginUnderEmptyBase(verb, LastSegment("/api/login"));
  }

  lemma ApiLoginUnderEmptyBase(verb: string, id: string)
    ensures Dispatch(verb, "/api/login", "", id) == NoRoute
  {
    assert !StartsWith("/api/login", "/api/announcements/");
  }

  /** The bare root is always answered with 204. */
  lemma RootIsNoContent(verb: string, cfg: Config)
    ensures Classify(verb, "/", cfg) == Root
  {
    assert |Lower(cfg.Base() + "/logout")| >= 7;
  }

  /** Only `/` and the empty path have the empty match form. */
  lemma EmptyMatchForm(path: string)
    ensures MatchForm(path) == "" ==> path == "" || path == "/"
  {
    if path != "" && MatchForm(path) == "" {
      assert Lower(path) == "/";
      assert LowerChar(path[0]) == '/';
    }
  }

  /**
    With the default base `/`, the list view is unreachable: its only paths,
    `/` and the empty path, are taken by the root rule first.
   */
  lemma DefaultBaseHidesListView(verb: string, path: string, cfg: Config)
    requires cfg.homeUrl == ""
    ensures Classify(verb, path, cfg) != ListView
  {
    assert MatchForm(cfg.Base()) == "" by {
      LowerFixed("/");
    }
    EmptyMatchForm(path);
    ListViewIsTheBase(verb, path, cfg);
  }

  /** The list view is reached only by a path other than the root whose match form is the base's. */
  lemma ListViewIsTheBase(verb: string, path: string, cfg: Config)
    ensures Classify(verb, path, cfg) == ListView ==> path != "" && path != "/" && MatchForm(path) == MatchForm(cfg.Base())
  {
  }

  /** Anything outside the base path (and not the logout or root path) is refused with 403. */
  lemma OutsideBaseForbidden(verb: string, path: string, cfg: Config)
    requires !IsLogoutPath(path, cfg) && path != "/" && path != ""
    requires MatchForm(path) != MatchForm(cfg.Base())
    requires !StartsWith(MatchForm(path), MatchForm(cfg.Base()) + "/")
    ensures Classify(verb, path, cfg) == Forbidden
  {
  }

  /** Every route other than logout, root and 403 lies inside the base path. */
  lemma RoutedPathsInsideBase(verb: string, path: string, cfg: Config)
    requires Classify(verb, path, cfg).NeedsAuth() || Classify(verb, path, cfg) == NoRoute
    ensures MatchForm(path) == MatchForm(cfg.Base()) || StartsWith(MatchForm(path), MatchForm(cfg.Base()) + "/")
  {
  }

  /** A path whose match form has a `/` at index `k` has a `/` there too. */
  lemma SlashSurvivesMatchForm(path: string, k: nat)
    requires k < |MatchForm(path)| && MatchForm(path)[k] == '/'
    ensures k < |path| && path[k] == '/'
  {
    var l := Lower(path);
    assert MatchForm(path) == l[..|MatchForm(path)|];
    assert LowerChar(path[k]) == '/';
  }

  /**
    The id of a single-announcement route is the last segment of the path as
    sent: it holds no `/`, the path ends with it right after a `/`, and a
    trailing `/` makes it empty.
   */
  lemma RouteIdIsLastSegment(verb: string, path: string, cfg: Config)
    requires var r := Classify(verb, path, cfg); r.ApiGet? || r.ApiUpdate? || r.ApiDelete?
    ensures var id := Classify(verb, path, cfg).id;
            EndsWith(path, id) && (forall i :: 0 <= i < |id| ==> id[i] != '/')
            && |id| < |path| && path[|path| - |id| - 1] == '/'
            && (EndsWith(path, "/") ==> id == "")
  {
    var p, b := MatchForm(path), MatchForm(cfg.Base());
    assert Classify(verb, path, cfg) == Dispatch(verb, p, b, LastSegment(path));
    DispatchIgnoresId(verb, p, b, LastSegment(path));
    SlashAfterBase(p, b);
    SlashSurvivesMatchForm(path, |b|);
    LastSegmentAfterSlash(path, |b|);
  }

  lemma SlashAfterBase(p: string, b: string)
    requires StartsWith(p, b + "/api/announcements/")
    ensures |b| < |p| && p[|b|] == '/'
  {
    var prefix := b + "/api/announcements/";
    assert p[..|prefix|] == prefix;
    assert p[|b|] == prefix[|b|];
  }

  /** Matching ignores case: paths that differ only in case reach the same endpoint. */
  lemma CaseInsensitive(verb: string, p1: string, p2: string, cfg: Config)
    requires Lower(p1) == Lower(p2)
    ensures Classify(verb, p1, cfg).Endpoint() == Classify(verb, p2, cfg).Endpoint()
  {
    LowerKeepsRoot(p1, p2);
    assert IsLogoutPath(p1, cfg) == IsLogoutPath(p2, cfg);
    assert MatchForm(p1) == MatchForm(p2);
    if p1 != "/" && p1 != "" {
      var b := MatchForm(cfg.Base());
      DispatchIgnoresId(verb, MatchForm(p1), b, LastSegment(p1));
      DispatchIgnoresId(verb, MatchForm(p2), b, LastSegment(p2));
    }
  }

  /** Only `/` lower-cases to `/`, and only "" to "". */
  lemma LowerKeepsRoot(p1: string, p2: string)
    requires Lower(p1) == Lower(p2)
    ensures p1 == "/" <==> p2 == "/"
    ensures p1 == "" <==> p2 == ""
  {
    assert |p1| == |p2|;
    if |p1| == 1 {
      assert LowerChar(p1[0]) == Lower(p1)[0] == Lower(p2)[0] == LowerChar(p2[0]);
    }
  }

  /** A path without a trailing `/` keeps none after lower-casing. */
  lemma LowerKeepsLastChar(path: string)
    requires path != "" && !EndsWith(path, "/")
    ensures Lower(path + "/") == Lower(path) + "/" && !EndsWith(Lower(path), "/")
  {
    LowerConcat(path, "/");
    LowerFixed("/");
    assert LowerChar(path[|path| - 1]) == Lower(path)[|path| - 1];
  }

  /** Adding one `/` to a path that lacks it does not change whether it is the logout path. */
  lemma SlashVariantSameLogout(path: string, cfg: Config)
    requires path != "" && !EndsWith(path, "/")
    ensures IsLogoutPath(path + "/", cfg) <==> IsLogoutPath(path, cfg)
  {
    var l := Lower(path);
    LowerKeepsLastChar(path);
    var logout := Lower(cfg.Base() + "/logout");
    assert EndsWith(logout, "t") by {
      LowerConcat(cfg.Base(), "/logout");
      LowerFixed("/logout");
    }
    assert l + "/" != logout by {
      if |l + "/"| == |logout| { assert (l + "/")[|l|] != logout[|logout| - 1]; }
    }
    assert l + "/" == logout + "/" ==> l == logout by {
      if l + "/" == logout + "/" { assert (l + "/")[..|l|] == (logout + "/")[..|logout|]; }
    }
    assert l != logout + "/";
  }

  /** Adding one `/` to a path that lacks it does not change its match form. */
  lemma SlashVariantSameForm(path: string)
    requires path != "" && !EndsWith(path, "/")
    ensures MatchForm(path + "/") == MatchForm(path)
  {
    LowerKeepsLastChar(path);
    assert StripTrailingSlash(Lower(path) + "/") == Lower(path);
  }

  /** One trailing `/` makes no difference to the endpoint a path reaches. */
  lemma TrailingSlashTolerated(verb: string, path: string, cfg: Config)
    requires path != "" && !EndsWith(path, "/")
    ensures Classify(verb, path + "/", cfg).Endpoint() == Classify(verb, path, cfg).Endpoint()
  {
    SlashVariantSameLogout(path, cfg);
    SlashVariantSameForm(path);
    var l, b := MatchForm(path), MatchForm(cfg.Base());
    DispatchIgnoresId(verb, l, b, LastSegment(path + "/"));
    DispatchIgnoresId(verb, l, b, LastSegment(path));
  }

  /**
    With the default base `/`, a path under `//api/` reaches no route that
    needs authorisation: its match form starts with `//`, which the route
    tests under the empty base form never accept.
   */
  lemma DefaultBaseApiPrefixUnguarded(verb: string, path: string, cfg: Config)
    requires cfg.homeUrl == "" && StartsWith(path, "//api/")
    ensures !Classify(verb, path, cfg).NeedsAuth()
  {
    if !IsLogoutPath(path, cfg) {
      DefaultBaseForm(cfg);
      DoubleSlashForm(path);
      DoubleSlashUnrouted(verb, MatchForm(path), LastSegment(path));
      assert path != "/" && path != "";
      assert Classify(verb, path, cfg) == Dispatch(verb, MatchForm(path), "", LastSegment(path));
    }
  }

  lemma DefaultBaseForm(cfg: Config)
    requires cfg.homeUrl == ""
    ensures MatchForm(cfg.Base()) == ""
  {
    LowerFixed("/");
  }

  lemma DoubleSlashForm(path: string)
    requires StartsWith(path, "//")
    ensures |MatchForm(path)| >= 2 ==> MatchForm(path)[0] == '/' && MatchForm(path)[1] == '/'
    ensures |path| >= 3 ==> |MatchForm(path)| >= 2
  {
    var l := Lower(path);
    assert l[0] == LowerChar(path[0]) && l[1] == LowerChar(path[1]);
    assert MatchForm(path) == l[..|MatchForm(path)|];
  }

  lemma DoubleSlashUnrouted(verb: string, p: string, id: string)
    requires |p| >= 2 && p[0] == '/' && p[1] == '/'
    ensures Dispatch(verb, p, "", id) == NoRoute
  {
    assert p != "/admin" by { assert "/admin"[1] == 'a'; }
    assert p != "/api/announcements" by { assert "/api/announcements"[1] == 'a'; }
    assert !StartsWith(p, "/api/announcements/") by { assert "/api/announcements/"[1] == 'a'; }
    assert StartsWith(p, "" + "/");
  }

  /** Each write route is reached by its own method only. */
  lemma WriteRoutesNeedWriteVerbs(verb: string, path: string, cfg: Config)
    ensures Classify(verb, path, cfg) == ApiCreate ==> verb == "POST"
    ensures Classify(verb, path, cfg).ApiUpdate? ==> verb == "PUT"
    ensures Classify(verb, path, cfg).ApiDelete? ==> verb == "DELETE"
  {
    var r := Classify(verb, path, cfg);
    if r == ApiCreate || r.ApiUpdate? || r.ApiDelete? {
      DispatchWriteVerbs(verb, MatchForm(path), MatchForm(cfg.Base()), LastSegment(path));
    }
  }

  lemma DispatchWriteVerbs(verb: string, p: string, b: string, id: string)
    ensures Dispatch(verb, p, b, id) == ApiCreate ==> verb == "POST"
    ensures Dispatch(verb, p, b, id).ApiUpdate? ==> verb == "PUT"
    ensures Dispatch(verb, p, b, id).ApiDelete? ==> verb == "DELETE"
  {
  }
}
