/**
 * The bottom navigation bar of src/components/NavBar.tsx: which entries it
 * shows for a signed-in and a signed-out visitor, which entry is
 * highlighted for the current path, and what choosing an entry does.
 */
module NavBar {
  import opened Values
  import opened Session

  datatype Action = SignOut | ToggleTheme

  /** An entry has a path to navigate to or an action to run. */
  datatype NavLink = NavLink(title: string, path: Option<string>, action: Option<Action>)

  /** What choosing an entry does. */
  datatype Effect = Run(action: Action) | Navigate(path: string) | NoEffect

  function Goes(title: string, path: string): NavLink {
    NavLink(title, Some(path), None)
  }

  function Does(title: string, action: Action): NavLink {
    NavLink(title, None, Some(action))
  }

  /** A JavaScript value as a template literal renders it. */
  function Interpolate(v: JsString): (r: string)
    ensures v.Str? ==> r == v.text
    ensures v == Undefined ==> r == "undefined"
    ensures v == Null ==> r == "null"
  {
    match v
    case Undefined => "undefined"
    case Null => "null"
    case Str(t) => t
  }

  /** `session.user?.name`. */
  function UserName(session: Session): JsString {
    if session.user.Some? then session.user.value.name else Undefined
  }

  /** The page each entry navigates to, if any. */
  function Paths(links: seq<NavLink>): (ps: seq<Option<string>>)
    ensures |ps| == |links| && forall k :: 0 <= k < |links| ==> ps[k] == links[k].path
  {
    seq(|links|, k requires 0 <= k < |links| => links[k].path)
  }

  /** The entries, for the session `getSession` delivered (`None` before it
      arrives and for a visitor). */
  function Links(session: Option<Session>): (links: seq<NavLink>)
    ensures session.Some? ==> |links| == 6
    ensures session.None? ==> |links| == 7
    // every entry has exactly one of a path and an action
    ensures forall k :: 0 <= k < |links| ==> (links[k].path.Some? <==> links[k].action.None?)
    // the theme toggle is the last entry in both lists
    ensures links[|links| - 1].action == Some(ToggleTheme)
    // signing out is offered exactly to a signed-in visitor
    ensures (exists k :: 0 <= k < |links| && links[k].action == Some(SignOut)) <==> session.Some?
    // the pages, in order
    ensures session.Some? ==> Paths(links) == [Some("/prispevok"), Some("/profil"), Some("/pridat"), Some("/notifikacie"), None, None]
    ensures session.None? ==> Paths(links) == [Some("/"), Some("/gdpr"), Some("/o-mne"), Some("/podmienky"),
                                               Some("/auth/prihlasenie"), Some("/auth/registracia"), None]
  {
    if session.Some? then
      var links := [
        Goes("Domov", "/prispevok"),
        Goes("Profil (" + Interpolate(UserName(session.value)) + ")", "/profil"),
        Goes("Pridať príspevok", "/pridat"),
        Goes("Notifikácie", "/notifikacie"),
        Does("Odhlásiť sa", SignOut),
        Does("Zmeniť tému", ToggleTheme)];
      assert links[4].action == Some(SignOut);
      links
    else
      [
        Goes("Domov", "/"),
        Goes("GDPR", "/gdpr"),
        Goes("O Mne", "/o-mne"),
        Goes("Podmienky", "/podmienky"),
        Goes("Prihlásiť sa", "/auth/prihlasenie"),
        Goes("Registrovať sa", "/auth/registracia"),
        Does("Zmeniť tému", ToggleTheme)]
  }

  /** `links.findIndex(link => link.path === pathname)`. */
  function ActiveIndex(links: seq<NavLink>, pathname: string): (i: int)
    ensures -1 <= i < |links|
    ensures i >= 0 ==> links[i].path == Some(pathname)
    ensures i >= 0 ==> forall j :: 0 <= j < i ==> links[j].path != Some(pathname)
    ensures i == -1 <==> forall j :: 0 <= j < |links| ==> links[j].path != Some(pathname)
    decreases |links|
  {
    if |links| == 0 then -1
    else if links[0].path == Some(pathname) then 0
    else
      var i := ActiveIndex(links[1..], pathname);
      if i == -1 then -1 else i + 1
  }

  /** The highlighted entry: the active one, or the first when none is. */
  function Selected(links: seq<NavLink>, pathname: string): (i: nat)
    requires |links| > 0
    ensures i < |links|
    ensures links[i].path == Some(pathname) || (i == 0 && ActiveIndex(links, pathname) == -1)
    ensures links[i].path == Some(pathname) ==> forall j :: 0 <= j < i ==> links[j].path != Some(pathname)
    ensures (exists j :: 0 <= j < |links| && links[j].path == Some(pathname)) ==> links[i].path == Some(pathname)
  {
    var a := ActiveIndex(links, pathname);
    if a >= 0 then a else 0
  }

  /** `onChange`: an entry's action wins over its path; an empty path does
      nothing. */
  function Choose(links: seq<NavLink>, index: nat): (e: Effect)
    requires index < |links|
    ensures links[index].action.Some? ==> e == Run(links[index].action.value)
    ensures e.Navigate? <==> links[index].action.None? && Present(links[index].path)
    ensures e.Navigate? ==> Some(e.path) == links[index].path
    ensures links[index].action.None? && !Present(links[index].path) ==> e == NoEffect
  {
    var link := links[index];
    if link.action.Some? then Run(link.action.value)
    else if link.path.Some? && link.path.value != "" then Navigate(link.path.value)
    else NoEffect
  }

  /** Choosing the highlighted entry of a page that has one navigates back
      to that page, for either list. */
  lemma ChoosingActiveStays(session: Option<Session>, pathname: string)
    requires pathname != ""
    requires ActiveIndex(Links(session), pathname) >= 0
    ensures Choose(Links(session), Selected(Links(session), pathname)) == Navigate(pathname)
  {
  }

  /** The sign-in page is highlighted for a visitor and unknown to a
      signed-in user, whose bar then highlights "Domov". */
  lemma SignInPageHighlight(session: Option<Session>)
    ensures session.None? ==> ActiveIndex(Links(session), "/auth/prihlasenie") == 4
    ensures session.Some? ==> ActiveIndex(Links(session), "/auth/prihlasenie") == -1
    ensures session.Some? ==> Selected(Links(session), "/auth/prihlasenie") == 0
  {
    var links := Links(session);
    if session.Some? {
      assert forall j :: 0 <= j < |links| ==> links[j].path != Some("/auth/prihlasenie");
    } else {
      assert links[4].path == Some("/auth/prihlasenie");
      assert forall j :: 0 <= j < 4 ==> links[j].path != Some("/auth/prihlasenie");
    }
  }

  /** Entries that run an action have no path, so no page highlights them. */
  lemma ActionsNeverActive(session: Option<Session>, pathname: string, k: nat)
    requires k < |Links(session)| && Links(session)[k].action.Some?
    ensures ActiveIndex(Links(session), pathname) != k
  {
  }
}
