/** The Screen component: the message log and cursor it keeps for the
    selected site, the two dialog toggles, and the choice of what to render
    from the profile's sites. */
module Screen {

  import opened Wrappers
  import opened MessageSync
  import SubmitDialog

  /** The `site` prop: `null`/`undefined`, or a site name. */
  datatype SiteRef = NoSite | Named(name: string)

  /** One value of `profile.sitesObj`; `submissions` may be missing. */
  datatype SiteInfo = SiteInfo(submissions: Option<seq<SubmitDialog.Submission>>)

  type Sites = map<string, SiteInfo>

  /** `site ? … : …`: only a non-empty name is truthy. */
  predicate Truthy(site: SiteRef)
  {
    site.Named? && site.name != ""
  }

  /** `Object.keys(sites).includes(site)`. */
  predicate Listed(sites: Sites, site: SiteRef)
  {
    site.Named? && site.name in sites
  }

  /** `x || []` for a submissions list that may be missing. */
  function OrEmpty(subs: Option<seq<SubmitDialog.Submission>>): seq<SubmitDialog.Submission>
  {
    if subs.Some? then subs.value else []
  }

  /** What the Screen renders. `Crash` is a render that throws. */
  datatype Page =
    | Crash
    | NotFound(site: SiteRef)
    | Main(submitDialog: bool, feedbacksDialog: bool, headerDisabled: bool,
           headerActions: bool, msgs: seq<Msg>)

  function MainPage(submissions: seq<SubmitDialog.Submission>, showSubmitFileDialog: bool,
                    showFeedbacksDialog: bool, messages: seq<Msg>): Page
  {
    var hasSubmissions := |submissions| > 0;
    Main(hasSubmissions, hasSubmissions, showSubmitFileDialog || showFeedbacksDialog,
         hasSubmissions, messages)
  }

  // ---------------------------------------------------------------------
  // As written: `sites[site].submissions` is read before the not-found test.

  /** The properties a plain object inherits from `Object.prototype`. Looking
      one of them up in `sitesObj` yields a function or an object, never
      `undefined`, even though `Object.keys` does not list it. */
  const ObjectPrototypeNames: set<string> :=
    {"constructor", "hasOwnProperty", "isPrototypeOf", "propertyIsEnumerable",
     "toLocaleString", "toString", "valueOf", "__proto__", "__defineGetter__",
     "__defineSetter__", "__lookupGetter__", "__lookupSetter__"}

  /** `site ? sites[site].submissions || [] : []`; `None` when `sites[site]`
      is undefined and reading `.submissions` from it throws. An inherited
      property has no `submissions`, so `|| []` gives the empty list. */
  function SubmissionsAsWritten(sites: Sites, site: SiteRef): (r: Option<seq<SubmitDialog.Submission>>)
    ensures r.None? <==> Truthy(site) && !Listed(sites, site) && site.name !in ObjectPrototypeNames
    ensures r.Some? && Truthy(site) && Listed(sites, site) ==> r.value == OrEmpty(sites[site.name].submissions)
    ensures r.Some? && !(Truthy(site) && Listed(sites, site)) ==> r.value == []
  {
    if !Truthy(site) then Some([])
    else if site.name in sites then Some(OrEmpty(sites[site.name].submissions))
    else if site.name in ObjectPrototypeNames then Some([])
    else None
  }

  function PageAsWritten(sites: Sites, site: SiteRef, showSubmitFileDialog: bool,
                         showFeedbacksDialog: bool, messages: seq<Msg>): (p: Page)
    ensures p.Crash? <==> SubmissionsAsWritten(sites, site).None?
    ensures p.NotFound? <==> !Listed(sites, site) && SubmissionsAsWritten(sites, site).Some?
    ensures p.Main? ==> p.msgs == messages
  {
    match SubmissionsAsWritten(sites, site)
    case None => Crash
    case Some(submissions) =>
      if !Listed(sites, site) then NotFound(site)
      else MainPage(submissions, showSubmitFileDialog, showFeedbacksDialog, messages)
  }

  /** The as-written render throws exactly for a non-empty site name that is
      neither among the profile's sites nor inherited from `Object.prototype`:
      the case the not-found branch was meant for. */
  lemma AsWrittenCrashesOnUnlistedSite(sites: Sites, site: SiteRef, showSubmitFileDialog: bool,
                                       showFeedbacksDialog: bool, messages: seq<Msg>)
    ensures PageAsWritten(sites, site, showSubmitFileDialog, showFeedbacksDialog, messages).Crash?
      <==> Truthy(site) && !Listed(sites, site) && site.name !in ObjectPrototypeNames
  {
  }

  /** An unlisted inherited name such as `"constructor"` does reach the not-found page. */
  lemma InheritedNameExample()
    ensures PageAsWritten(map[], Named("constructor"), false, false, []) == NotFound(Named("constructor"))
  {
  }

  /** The input that shows it: an unknown site `"x"`. */
  lemma UnknownSiteExample()
    ensures PageAsWritten(map[], Named("x"), false, false, []) == Crash
    ensures ScreenPage(map[], Named("x"), false, false, []) == NotFound(Named("x"))
  {
  }

  // ---------------------------------------------------------------------
  // Corrected: the not-found test guards the lookup.

  /** The site's submissions, or none when the site is falsy or unknown. */
  function Submissions(sites: Sites, site: SiteRef): (subs: seq<SubmitDialog.Submission>)
    ensures Truthy(site) && Listed(sites, site) ==> subs == OrEmpty(sites[site.name].submissions)
    ensures !(Truthy(site) && Listed(sites, site)) ==> subs == []
  {
    if Truthy(site) && site.name in sites then OrEmpty(sites[site.name].submissions) else []
  }

  function ScreenPage(sites: Sites, site: SiteRef, showSubmitFileDialog: bool,
                      showFeedbacksDialog: bool, messages: seq<Msg>): (p: Page)
    ensures !p.Crash?
    ensures p.NotFound? <==> !Listed(sites, site)
    ensures p.NotFound? ==> p.site == site
    ensures p.Main? ==> p.msgs == messages
    ensures p.Main? ==> p.headerDisabled == (showSubmitFileDialog || showFeedbacksDialog)
    ensures p.Main? ==> (p.submitDialog <==> |Submissions(sites, site)| > 0)
    ensures p.Main? ==> (p.feedbacksDialog <==> |Submissions(sites, site)| > 0)
    ensures p.Main? ==> (p.headerActions <==> |Submissions(sites, site)| > 0)
  {
    if !Listed(sites, site) then NotFound(site)
    else MainPage(Submissions(sites, site), showSubmitFileDialog, showFeedbacksDialog, messages)
  }

  /** Wherever the as-written render does not throw, the corrected one renders the same page. */
  lemma {:induction false} CorrectedAgreesWhenNoCrash(sites: Sites, site: SiteRef,
                                                      showSubmitFileDialog: bool,
                                                      showFeedbacksDialog: bool, messages: seq<Msg>)
    requires !PageAsWritten(sites, site, showSubmitFileDialog, showFeedbacksDialog, messages).Crash?
    ensures PageAsWritten(sites, site, showSubmitFileDialog, showFeedbacksDialog, messages)
      == ScreenPage(sites, site, showSubmitFileDialog, showFeedbacksDialog, messages)
  {
  }

  /** A site with a submissions list mounts both dialogs; one without mounts neither. */
  lemma DialogsNeedSubmissions(sites: Sites, name: string, subs: seq<SubmitDialog.Submission>,
                               showSubmitFileDialog: bool, showFeedbacksDialog: bool,
                               messages: seq<Msg>)
    requires name != "" && name in sites && sites[name].submissions == Some(subs)
    ensures var p := ScreenPage(sites, Named(name), showSubmitFileDialog, showFeedbacksDialog, messages);
      p.Main? && (p.submitDialog <==> subs != []) && (p.feedbacksDialog <==> subs != [])
  {
  }

  // ---------------------------------------------------------------------
  // The component's state.

  class ScreenState {
    var site: SiteRef
    var messages: seq<Msg>
    var lastMessage: Cursor
    var showSubmitFileDialog: bool
    var showFeedbacksDialog: bool

    function State(): Log
      reads this
    {
      Log(messages, lastMessage)
    }

    /** Initial `useState` values; the site effect then runs as `SiteChanged`. */
    constructor (site: SiteRef)
      ensures this.site == site && messages == [] && lastMessage == Null
      ensures !showSubmitFileDialog && !showFeedbacksDialog
    {
      this.site := site;
      messages := [];
      lastMessage := Null;
      showSubmitFileDialog := false;
      showFeedbacksDialog := false;
    }

    function Render(sites: Sites): (p: Page)
      reads this
      ensures p.NotFound? <==> !Listed(sites, site)
      ensures p.Main? ==> p.msgs == messages
    {
      ScreenPage(sites, site, showSubmitFileDialog, showFeedbacksDialog, messages)
    }

    /** `getNewMessages`, with `ApiService.fetchMessages` as an oracle.
        Returns the cursor sent and whether `refreshLogin` was called. */
    method GetNewMessages(ignoreLastMessage: bool, fetchMessages: (Cursor, SiteRef) -> FetchResult)
      returns (sent: Cursor, refreshLogin: bool)
      modifies this`messages, this`lastMessage
      ensures sent == (if ignoreLastMessage then Null else old(lastMessage))
      ensures refreshLogin <==> fetchMessages(sent, site).AuthFail?
      ensures State() == Apply(old(State()), fetchMessages(sent, site))
      ensures var r := fetchMessages(sent, site);
        r.Batch? && r.items != [] ==>
          messages == old(messages) + r.items && lastMessage == At(r.items[|r.items| - 1].when)
      ensures var r := fetchMessages(sent, site);
        r.AuthFail? || r.items == [] ==> messages == old(messages) && lastMessage == old(lastMessage)
    {
      sent := RequestCursor(ignoreLastMessage, lastMessage);
      var newMessages := fetchMessages(sent, site);
      refreshLogin := SignalsRefresh(newMessages);
      if newMessages.Batch? && |newMessages.items| > 0 {
        messages := messages + newMessages.items;
        lastMessage := At(newMessages.items[|newMessages.items| - 1].when);
      }
    }

    /** The effect that runs when `site` changes: reset the cursor and poll
        without one. The log is kept. */
    method SiteChanged(newSite: SiteRef, fetchMessages: (Cursor, SiteRef) -> FetchResult)
      returns (sent: Cursor, refreshLogin: bool)
      modifies this`site, this`messages, this`lastMessage
      ensures site == newSite && sent == Null
      ensures refreshLogin <==> fetchMessages(Null, newSite).AuthFail?
      ensures State() == Apply(Log(old(messages), Null), fetchMessages(Null, newSite))
      ensures messages == old(messages) + Items(fetchMessages(Null, newSite))
    {
      site := newSite;
      lastMessage := Null;
      sent, refreshLogin := GetNewMessages(true, fetchMessages);
    }

    method EnableSubmitFile()
      modifies this`showSubmitFileDialog
      ensures showSubmitFileDialog
    {
      showSubmitFileDialog := true;
    }

    /** Also the submit dialog's `done`. */
    method CancelSubmitFile()
      modifies this`showSubmitFileDialog
      ensures !showSubmitFileDialog
    {
      showSubmitFileDialog := false;
    }

    method EnableFeedbacks()
      modifies this`showFeedbacksDialog
      ensures showFeedbacksDialog
    {
      showFeedbacksDialog := true;
    }

    method CancelFeedbacks()
      modifies this`showFeedbacksDialog
      ensures !showFeedbacksDialog
    {
      showFeedbacksDialog := false;
    }
  }
}
