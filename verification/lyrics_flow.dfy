/** Retrieving and saving lyrics, in the interactive script (`get_lyrics` of
    get_lyrics.py) and in the unattended task (`get_lyrics` and `main` of
    tasks.py). The site is given as a `Site` oracle; the translator is the
    answer it gives for the lyrics, or None when it raises. */
module LyricsFlow {
  import opened Optional
  import opened Actions
  import opened Text
  import opened Songs
  import TaskLogin
  import LyricsLogin

  const SearchInput := "css:input#search.ui-autocomplete-input"
  const SearchButton := "css:button#page-word-search-button"
  const BestMatches := "class:best-matches"
  const TitleHeading := "css:h1#lyric-title-text.lyric-title"
  const LyricsBody := "id:lyric-body-text"

  /** What the browser, the search page and the translator do during one run. */
  datatype Site = Site(
    failing: set<Action>,          // browser and file actions that raise
    results: seq<ResultCase>,      // the `.bm-case` blocks of the search results
    pageTitle: Option<string>,     // text of the title heading; None when the lookup raises
    lyricsText: Option<string>,    // text of the lyrics body; None when the lookup raises
    translation: Option<string>)   // the Vietnamese translation of the lyrics; None when the translator raises

  /** `f"{title}"`: the title, or "None" when there is none. */
  function TitleText(title: Option<string>): string {
    match title
    case None => "None"
    case Some(t) => t
  }

  /** `f'{song_title}.txt'`. */
  function FileName(title: Option<string>): (name: string)
    ensures |name| >= 4 && name[|name| - 4..] == ".txt"
    ensures name[..|name| - 4] == TitleText(title)
  {
    TitleText(title) + ".txt"
  }

  /** Distinct titles get distinct files, but a missing title shares its file
      with a song titled "None". */
  lemma FileNameInjective(a: string, b: string)
    ensures FileName(Some(a)) == FileName(Some(b)) <==> a == b
    ensures FileName(None) == FileName(Some("None")) == "None.txt"
  {
    if FileName(Some(a)) == FileName(Some(b)) {
      calc {
        a;
        FileName(Some(a))[..|FileName(Some(a))| - 4];
        FileName(Some(b))[..|FileName(Some(b))| - 4];
        b;
      }
    }
  }

  /** `os.path.join(os.getcwd(), file_name)`: the file named after the title,
      inside the working directory unless the title itself starts with '/'. */
  function SavePath(cwd: string, title: Option<string>): (r: string)
    ensures |FileName(title)| <= |r| && r[|r| - |FileName(title)|..] == FileName(title)
    ensures FileName(title)[0] != '/' ==> |cwd| <= |r| && r[..|cwd|] == cwd
    ensures FileName(title)[0] == '/' ==> r == FileName(title)
  {
    PathJoin(cwd, FileName(title))
  }

  /** The file writes of `t`, in order. */
  function WritesOf(t: seq<Action>): (w: seq<Action>)
    ensures |w| <= |t|
    decreases |t|
  {
    if |t| == 0 then [] else (if t[0].WriteFile? then [t[0]] else []) + WritesOf(t[1..])
  }

  lemma {:induction false} WritesOfAppend(s: seq<Action>, t: seq<Action>)
    ensures WritesOf(s + t) == WritesOf(s) + WritesOf(t)
    decreases |s|
  {
    if |s| == 0 {
      assert s + t == t;
    } else {
      var h := if s[0].WriteFile? then [s[0]] else [];
      assert (s + t)[0] == s[0];
      assert (s + t)[1..] == s[1..] + t;
      assert WritesOf(s + t) == h + WritesOf(s[1..] + t);
      WritesOfAppend(s[1..], t);
      assert WritesOf(s) == h + WritesOf(s[1..]);
    }
  }

  lemma {:induction false} NoWriteFiles(t: seq<Action>)
    requires forall i :: 0 <= i < |t| ==> !t[i].WriteFile?
    ensures WritesOf(t) == []
    decreases |t|
  {
    if |t| > 0 {
      NoWriteFiles(t[1..]);
    }
  }

  /** A step that writes nothing and does not fail on the translator, followed
      by another: the writes and the translator failure are the second's, when
      the first completes. */
  lemma ThenWrites(a: Run, b: Run)
    requires WritesOf(a.trace) == [] && a.fault != Some(TranslatorFailed)
    ensures WritesOf(Then(a, b).trace) == if a.Ok() then WritesOf(b.trace) else []
    ensures Then(a, b).fault == Some(TranslatorFailed) <==> a.Ok() && b.fault == Some(TranslatorFailed)
  {
    if a.Ok() {
      WritesOfAppend(a.trace, b.trace);
    }
  }

  /** What `get_lyrics_from_song` returns, and the action it issued. */
  datatype Fetched = Fetched(trace: seq<Action>, lyrics: Option<string>) {
    /** `if lyrics:` — found and non-empty. */
    predicate Found() {
      lyrics.Some? && lyrics.value != ""
    }
  }

  /** `get_lyrics_from_song`: wait for the lyrics body and strip its text; any
      exception is logged and yields None. */
  function LyricsFromSong(site: Site): (r: Fetched)
    ensures r.trace == [WaitVisible(LyricsBody)]
    ensures r.lyrics.Some? <==> WaitVisible(LyricsBody) !in site.failing && site.lyricsText.Some?
    ensures r.lyrics.Some? ==> exists a: nat, b: nat :: TrimmedInfix(site.lyricsText.value, a, b, r.lyrics.value)
    ensures r.Found() ==> !IsSpace(r.lyrics.value[0]) && !IsSpace(r.lyrics.value[|r.lyrics.value| - 1])
  {
    if WaitVisible(LyricsBody) in site.failing || site.lyricsText.None? then Fetched([WaitVisible(LyricsBody)], None)
    else Fetched([WaitVisible(LyricsBody)], Some(Strip(site.lyricsText.value)))
  }

  /** `save_lyrics_to_file`: one file write, whose failure is logged and swallowed. */
  function SaveLyrics(cwd: string, title: Option<string>, text: string): (r: Run)
    ensures r.Ok()
    ensures r.trace == [WriteFile(SavePath(cwd, title), text)]
  {
    Run([WriteFile(SavePath(cwd, title), text)], None)
  }

  // ---------------------------------------------------------------- get_lyrics.py

  /** How far navigation got, and the title it settled on (None when no song was chosen). */
  datatype Located = Located(run: Run, title: Option<string>)

  function SearchActions(query: string): seq<Action> {
    [InputText(SearchInput, query), Click(SearchButton), WaitVisible(BestMatches)]
  }

  /** The browser accepts every action of the search. */
  predicate SearchAccepted(query: string, failing: set<Action>) {
    InputText(SearchInput, query) !in failing && Click(SearchButton) !in failing && WaitVisible(BestMatches) !in failing
  }

  /** Type the query, press search, wait for the best matches. */
  function Search(query: string, failing: set<Action>): (r: Run)
    ensures r.Ok() <==> SearchAccepted(query, failing)
    ensures r.Ok() ==> r.trace == SearchActions(query)
    ensures forall i :: 0 <= i < |r.trace| ==> !r.trace[i].WriteFile? && !r.trace[i].GoTo?
    ensures r.fault != Some(TranslatorFailed)
  {
    Then(Perform(InputText(SearchInput, query), failing),
    Then(Perform(Click(SearchButton), failing),
         Perform(WaitVisible(BestMatches), failing)))
  }

  /** Search mode: type the query, search, take the songs scraped from the
      results (None when scraping raised), and open the song whose label was picked. */
  function SearchAndPick(query: string, scraped: Option<seq<Song>>, picked: Option<string>, failing: set<Action>): (r: Located)
    ensures r.run.Ok() <==>
      && SearchAccepted(query, failing)
      && scraped.Some?
      && var chosen := DisplaySongList(scraped.value, picked).chosen;
      && (chosen.Some? ==> GoTo(chosen.value.url) !in failing)
    ensures r.run.Ok() ==>
      && var chosen := DisplaySongList(scraped.value, picked).chosen;
      && r.title == (if chosen.Some? then Some(chosen.value.title) else None)
      && r.run.trace == SearchActions(query) + (if chosen.Some? then [GoTo(chosen.value.url)] else [])
    ensures forall i :: 0 <= i < |r.run.trace| ==> !r.run.trace[i].WriteFile?
    ensures r.run.fault != Some(TranslatorFailed)
  {
    if !Search(query, failing).Ok() then Located(Search(query, failing), None)
    else if scraped.None? then Located(Run(SearchActions(query), Some(ElementMissing)), None)
    else if DisplaySongList(scraped.value, picked).chosen.None? then Located(Run(SearchActions(query), None), None)
    else Located(Then(Run(SearchActions(query), None), Perform(GoTo(DisplaySongList(scraped.value, picked).chosen.value.url), failing)),
                 Some(DisplaySongList(scraped.value, picked).chosen.value.title))
  }

  /** URL mode: open the address and read the title heading. */
  function OpenUrl(url: string, site: Site): (r: Located)
    ensures r.run.Ok() <==> GoTo(url) !in site.failing && WaitVisible(TitleHeading) !in site.failing && site.pageTitle.Some?
    ensures r.run.Ok() ==> r.title == site.pageTitle && r.run.trace == [GoTo(url), WaitVisible(TitleHeading)]
    ensures forall i :: 0 <= i < |r.run.trace| ==> !r.run.trace[i].WriteFile?
    ensures r.run.fault != Some(TranslatorFailed)
  {
    if !Navigate(url, site.failing).Ok() then Located(Navigate(url, site.failing), None)
    else if site.pageTitle.None? then Located(Run([GoTo(url), WaitVisible(TitleHeading)], Some(ElementMissing)), None)
    else Located(Run([GoTo(url), WaitVisible(TitleHeading)], None), site.pageTitle)
  }

  /** Open the address and wait for the title heading. */
  function Navigate(url: string, failing: set<Action>): (r: Run)
    ensures r.Ok() <==> GoTo(url) !in failing && WaitVisible(TitleHeading) !in failing
    ensures r.Ok() ==> r.trace == [GoTo(url), WaitVisible(TitleHeading)]
    ensures forall i :: 0 <= i < |r.trace| ==> !r.trace[i].WriteFile?
    ensures r.fault != Some(TranslatorFailed)
  {
    Then(Perform(GoTo(url), failing), Perform(WaitVisible(TitleHeading), failing))
  }

  /** The end of `get_lyrics`: fetch, translate, save. Exactly one file is
      written, holding the translation under the title's name, when non-empty
      lyrics were found and translated; the translator is not guarded here, so
      its failure is the one exception that escapes; a failed write does not. */
  function FinishInteractive(cwd: string, title: Option<string>, site: Site): (r: Run)
    ensures |r.trace| > 0 && r.trace[0] == WaitVisible(LyricsBody)
    ensures WritesOf(r.trace) ==
      if LyricsFromSong(site).Found() && site.translation.Some? then [WriteFile(SavePath(cwd, title), site.translation.value)] else []
    ensures r.fault == Some(TranslatorFailed) <==> LyricsFromSong(site).Found() && site.translation.None?
    ensures r.Ok() || r.fault == Some(TranslatorFailed)
  {
    if !LyricsFromSong(site).Found() then Run([WaitVisible(LyricsBody)], None)
    else if site.translation.None? then Run([WaitVisible(LyricsBody)], Some(TranslatorFailed))
    else Then(Run([WaitVisible(LyricsBody)], None), SaveLyrics(cwd, title, site.translation.value))
  }

  /** `get_lyrics()` of the interactive script: `isUrl` is the verdict of the URL
      validator on the query, `picked` the label chosen in the song dialog. */
  function GetLyrics(query: string, isUrl: bool, picked: Option<string>, cwd: string, site: Site): (r: Run)
    ensures var located := Locate(query, isUrl, GetSongList(site.results), picked, site);
      && WritesOf(r.trace) ==
           (if located.run.Ok() && LyricsFromSong(site).Found() && site.translation.Some?
            then [WriteFile(SavePath(cwd, located.title), site.translation.value)] else [])
      && (r.fault == Some(TranslatorFailed) <==>
            located.run.Ok() && LyricsFromSong(site).Found() && site.translation.None?)
    ensures !isUrl && SearchAccepted(query, site.failing) && GetSongList(site.results).None? ==>
      r == Run(SearchActions(query), Some(ElementMissing))
  {
    GetLyricsFrom(query, isUrl, GetSongList(site.results), picked, cwd, site)
  }

  /** The first half of `get_lyrics()`: open the URL, or search and open the
      picked song. It writes nothing, and when it completes the title is the
      page's heading (URL mode) or the chosen song's title, None when nothing
      was chosen (search mode). */
  function Locate(query: string, isUrl: bool, scraped: Option<seq<Song>>, picked: Option<string>, site: Site): (r: Located)
    ensures WritesOf(r.run.trace) == []
    ensures r.run.fault != Some(TranslatorFailed)
    ensures isUrl && r.run.Ok() ==> r.title == site.pageTitle && r.title.Some?
    ensures !isUrl && r.run.Ok() ==>
      && scraped.Some?
      && r.title == (if DisplaySongList(scraped.value, picked).chosen.Some?
                  then Some(DisplaySongList(scraped.value, picked).chosen.value.title) else None)
  {
    if isUrl then
      NoWriteFiles(OpenUrl(query, site).run.trace);
      OpenUrl(query, site)
    else
      NoWriteFiles(SearchAndPick(query, scraped, picked, site.failing).run.trace);
      SearchAndPick(query, scraped, picked, site.failing)
  }

  /** `get_lyrics()` with the outcome of `get_song_list` given as `scraped`: a
      failure while locating ends the call with nothing written; otherwise the
      lyrics are fetched after the navigation and saved under the located title. */
  function GetLyricsFrom(query: string, isUrl: bool, scraped: Option<seq<Song>>, picked: Option<string>, cwd: string, site: Site): (r: Run)
    ensures var located := Locate(query, isUrl, scraped, picked, site);
      && (!located.run.Ok() ==> r == located.run)
      && |located.run.trace| <= |r.trace| && r.trace[..|located.run.trace|] == located.run.trace
      && WritesOf(r.trace) ==
           (if located.run.Ok() && LyricsFromSong(site).Found() && site.translation.Some?
            then [WriteFile(SavePath(cwd, located.title), site.translation.value)] else [])
      && (r.fault == Some(TranslatorFailed) <==>
            located.run.Ok() && LyricsFromSong(site).Found() && site.translation.None?)
  {
    ThenWrites(Locate(query, isUrl, scraped, picked, site).run,
               FinishInteractive(cwd, Locate(query, isUrl, scraped, picked, site).title, site));
    Then(Locate(query, isUrl, scraped, picked, site).run,
         FinishInteractive(cwd, Locate(query, isUrl, scraped, picked, site).title, site))
  }

  /** Once locating completed, the call is the navigation followed by the end of `get_lyrics`. */
  lemma LocatedThenFinish(query: string, isUrl: bool, scraped: Option<seq<Song>>, picked: Option<string>, cwd: string, site: Site)
    requires Locate(query, isUrl, scraped, picked, site).run.Ok()
    ensures var located := Locate(query, isUrl, scraped, picked, site);
      GetLyricsFrom(query, isUrl, scraped, picked, cwd, site) ==
        Run(located.run.trace + FinishInteractive(cwd, located.title, site).trace, FinishInteractive(cwd, located.title, site).fault)
  {
  }

  /** Found and translated lyrics are fetched and then written under the title. */
  lemma FinishSaves(cwd: string, title: Option<string>, site: Site)
    requires LyricsFromSong(site).Found() && site.translation.Some?
    ensures FinishInteractive(cwd, title, site) ==
      Run([WaitVisible(LyricsBody), WriteFile(SavePath(cwd, title), site.translation.value)], None)
  {
  }

  /** Search mode with a picked song: the lyrics are saved under the song's
      title, even when the write itself fails. */
  lemma PickedSongSavedUnderItsTitle(query: string, picked: Option<string>, cwd: string, site: Site, songs: seq<Song>, song: Song)
    requires SearchAccepted(query, site.failing)
    requires GetSongList(site.results) == Some(songs)
    requires DisplaySongList(songs, picked).chosen == Some(song)
    requires GoTo(song.url) !in site.failing
    requires LyricsFromSong(site).Found() && site.translation.Some?
    ensures GetLyrics(query, false, picked, cwd, site) ==
      Run(SearchActions(query) + [GoTo(song.url), WaitVisible(LyricsBody),
          WriteFile(PathJoin(cwd, song.title + ".txt"), site.translation.value)], None)
  {
    PickedSongSavedFrom(query, picked, cwd, site, songs, song);
  }

  lemma PickedSongSavedFrom(query: string, picked: Option<string>, cwd: string, site: Site, songs: seq<Song>, song: Song)
    requires SearchAccepted(query, site.failing)
    requires DisplaySongList(songs, picked).chosen == Some(song)
    requires GoTo(song.url) !in site.failing
    requires LyricsFromSong(site).Found() && site.translation.Some?
    ensures GetLyricsFrom(query, false, Some(songs), picked, cwd, site) ==
      Run(SearchActions(query) + [GoTo(song.url), WaitVisible(LyricsBody),
          WriteFile(PathJoin(cwd, song.title + ".txt"), site.translation.value)], None)
  {
    var located := Locate(query, false, Some(songs), picked, site);
    assert located == Located(Run(SearchActions(query) + [GoTo(song.url)], None), Some(song.title));
    var tail := [WaitVisible(LyricsBody), WriteFile(SavePath(cwd, Some(song.title)), site.translation.value)];
    LocatedThenFinish(query, false, Some(songs), picked, cwd, site);
    FinishSaves(cwd, Some(song.title), site);
    SavePathOf(cwd, song.title);
    AppendSingleThenPair(SearchActions(query), GoTo(song.url), tail[0], tail[1]);
  }

  /** Where a song's lyrics are saved. */
  lemma SavePathOf(cwd: string, title: string)
    ensures SavePath(cwd, Some(title)) == PathJoin(cwd, title + ".txt")
  {
  }

  /** Appending one action and then two is appending the three. */
  lemma AppendSingleThenPair(s: seq<Action>, a: Action, b: Action, c: Action)
    ensures s + [a] + [b, c] == s + [a, b, c]
  {
  }

  /** Search mode with no matching pick: no navigation, and whatever lyrics the
      results page holds are saved as "None.txt". */
  lemma NoPickSavedAsNone(query: string, picked: Option<string>, cwd: string, site: Site, songs: seq<Song>)
    requires SearchAccepted(query, site.failing)
    requires GetSongList(site.results) == Some(songs)
    requires forall i :: 0 <= i < |songs| ==> picked != Some(SongLabel(songs[i]))
    requires LyricsFromSong(site).Found() && site.translation.Some?
    ensures GetLyrics(query, false, picked, cwd, site) ==
      Run(SearchActions(query) + [WaitVisible(LyricsBody), WriteFile(PathJoin(cwd, "None.txt"), site.translation.value)], None)
  {
    NoPickSavedFrom(query, picked, cwd, site, songs);
  }

  lemma NoPickSavedFrom(query: string, picked: Option<string>, cwd: string, site: Site, songs: seq<Song>)
    requires SearchAccepted(query, site.failing)
    requires forall i :: 0 <= i < |songs| ==> picked != Some(SongLabel(songs[i]))
    requires LyricsFromSong(site).Found() && site.translation.Some?
    ensures GetLyricsFrom(query, false, Some(songs), picked, cwd, site) ==
      Run(SearchActions(query) + [WaitVisible(LyricsBody), WriteFile(PathJoin(cwd, "None.txt"), site.translation.value)], None)
  {
    NothingPicked(songs, picked);
    assert Locate(query, false, Some(songs), picked, site) == Located(Run(SearchActions(query), None), None);
    LocatedThenFinish(query, false, Some(songs), picked, cwd, site);
    FinishSaves(cwd, None, site);
    NoTitlePath(cwd);
  }

  lemma NothingPicked(songs: seq<Song>, picked: Option<string>)
    requires forall i :: 0 <= i < |songs| ==> picked != Some(SongLabel(songs[i]))
    ensures DisplaySongList(songs, picked).chosen.None?
  {
    var opts := DisplaySongList(songs, picked).options;
    assert forall i :: 0 <= i < |songs| ==> opts[i] == SongLabel(songs[i]);
  }

  /** Without a title the file is "None.txt". */
  lemma NoTitlePath(cwd: string)
    ensures SavePath(cwd, None) == PathJoin(cwd, "None.txt")
  {
    assert FileName(None) == "None" + ".txt" == "None.txt";
  }

  /** URL mode: the lyrics are saved under the page's title heading. */
  lemma UrlSavedUnderPageTitle(url: string, picked: Option<string>, cwd: string, site: Site)
    requires GoTo(url) !in site.failing && WaitVisible(TitleHeading) !in site.failing && site.pageTitle.Some?
    requires LyricsFromSong(site).Found() && site.translation.Some?
    ensures GetLyrics(url, true, picked, cwd, site) ==
      Run([GoTo(url), WaitVisible(TitleHeading), WaitVisible(LyricsBody),
           WriteFile(PathJoin(cwd, site.pageTitle.value + ".txt"), site.translation.value)], None)
  {
    var located := Locate(url, true, GetSongList(site.results), picked, site);
    assert located == Located(Run([GoTo(url), WaitVisible(TitleHeading)], None), site.pageTitle);
    LocatedThenFinish(url, true, GetSongList(site.results), picked, cwd, site);
    FinishSaves(cwd, site.pageTitle, site);
    SavePathOf(cwd, site.pageTitle.value);
  }

  const LyricsUrl := "https://www.lyrics.com/"
  const LoginMode := "Login"

  /** What `get_browser()` did: the actions, the login it ran (if any), and the
      exception it caught and logged before returning False (if any). */
  datatype BrowserSession = BrowserSession(trace: seq<Action>, login: Option<LyricsLogin.LoginRun>, error: Option<Fault>)

  /** `get_browser()` of the interactive script: open the site, run `login()`
      when the mode dialog answered "Login", then `get_lyrics()` whatever the
      login returned. `mode` is the dialog's answer and `rounds` the login
      dialogs; an exception anywhere is caught and logged, and ends the task. */
  function GetBrowser(mode: Option<string>, rounds: seq<LyricsLogin.LoginRound>, query: string, isUrl: bool,
                      picked: Option<string>, cwd: string, site: Site): (r: BrowserSession)
    ensures |r.trace| > 0 && r.trace[0] == GoTo(LyricsUrl)
    ensures GoTo(LyricsUrl) in site.failing ==>
      r == BrowserSession([GoTo(LyricsUrl)], None, Some(ActionFailed(GoTo(LyricsUrl))))
    ensures r.login.Some? <==> GoTo(LyricsUrl) !in site.failing && mode == Some(LoginMode)
    ensures r.login.Some? ==> r.login.value == LyricsLogin.Login(rounds)
    ensures GoTo(LyricsUrl) !in site.failing ==>
      var lyrics := GetLyrics(query, isUrl, picked, cwd, site);
      && r.error == lyrics.fault
      && |lyrics.trace| < |r.trace|
      && r.trace[|r.trace| - |lyrics.trace|..] == lyrics.trace
  {
    if GoTo(LyricsUrl) in site.failing then
      BrowserSession([GoTo(LyricsUrl)], None, Some(ActionFailed(GoTo(LyricsUrl))))
    else if mode == Some(LoginMode) then
      SuffixOfAppend([GoTo(LyricsUrl)] + LyricsLogin.Login(rounds).trace, GetLyrics(query, isUrl, picked, cwd, site).trace);
      BrowserSession([GoTo(LyricsUrl)] + LyricsLogin.Login(rounds).trace + GetLyrics(query, isUrl, picked, cwd, site).trace,
                     Some(LyricsLogin.Login(rounds)), GetLyrics(query, isUrl, picked, cwd, site).fault)
    else
      SuffixOfAppend([GoTo(LyricsUrl)], GetLyrics(query, isUrl, picked, cwd, site).trace);
      BrowserSession([GoTo(LyricsUrl)] + GetLyrics(query, isUrl, picked, cwd, site).trace,
                     None, GetLyrics(query, isUrl, picked, cwd, site).fault)
  }

  /** The last |t| actions of s + t are t. */
  lemma SuffixOfAppend(s: seq<Action>, t: seq<Action>)
    ensures (s + t)[|s + t| - |t|..] == t
  {
  }

  /** A login that was cancelled or gave up after four rejections still goes on
      to the lyrics, exactly as a guest would after the login's actions. */
  lemma FailedLoginStillSearches(rounds: seq<LyricsLogin.LoginRound>, query: string, isUrl: bool,
                                 picked: Option<string>, cwd: string, site: Site)
    requires GoTo(LyricsUrl) !in site.failing
    requires !LyricsLogin.Login(rounds).Returned()
    ensures GetBrowser(Some(LoginMode), rounds, query, isUrl, picked, cwd, site).trace ==
      [GoTo(LyricsUrl)] + LyricsLogin.Login(rounds).trace + GetBrowser(Some("Guest"), rounds, query, isUrl, picked, cwd, site).trace[1..]
    ensures GetBrowser(Some(LoginMode), rounds, query, isUrl, picked, cwd, site).error ==
      GetBrowser(Some("Guest"), rounds, query, isUrl, picked, cwd, site).error
  {
    var lyrics := GetLyrics(query, isUrl, picked, cwd, site);
    var login := LyricsLogin.Login(rounds);
    assert GetBrowser(Some(LoginMode), rounds, query, isUrl, picked, cwd, site) ==
      BrowserSession([GoTo(LyricsUrl)] + login.trace + lyrics.trace, Some(login), lyrics.fault);
    assert GetBrowser(Some("Guest"), rounds, query, isUrl, picked, cwd, site) ==
      BrowserSession([GoTo(LyricsUrl)] + lyrics.trace, None, lyrics.fault);
    assert ([GoTo(LyricsUrl)] + lyrics.trace)[1..] == lyrics.trace;
  }

  // ---------------------------------------------------------------- tasks.py

  /** `translate_lyrics` of the task: the translation, or the lyrics unchanged
      when the translator raises. */
  function TranslateOrKeep(lyrics: string, translation: Option<string>): (r: string)
    ensures translation.None? ==> r == lyrics
    ensures translation.Some? ==> r == translation.value
  {
    translation.GetOr(lyrics)
  }

  function TaskSearchActions(songName: string): seq<Action> {
    [ClickWhenVisible(SearchInput), SendKeys(songName), Click(SearchButton), WaitVisible(BestMatches)]
  }

  /** The browser accepts every action of the task's search. */
  predicate TaskSearchAccepted(songName: string, failing: set<Action>) {
    && ClickWhenVisible(SearchInput) !in failing && SendKeys(songName) !in failing
    && Click(SearchButton) !in failing && WaitVisible(BestMatches) !in failing
  }

  /** `enter_text_in_element` on the search box, then search and wait for the matches. */
  function TaskSearch(songName: string, failing: set<Action>): (r: Run)
    ensures r.Ok() <==> TaskSearchAccepted(songName, failing)
    ensures r.Ok() ==> r.trace == TaskSearchActions(songName)
    ensures forall i :: 0 <= i < |r.trace| ==> !r.trace[i].GoTo? && !r.trace[i].WriteFile?
    ensures r.fault != Some(TranslatorFailed)
  {
    Then(Perform(ClickWhenVisible(SearchInput), failing),
    Then(Perform(SendKeys(songName), failing),
    Then(Perform(Click(SearchButton), failing),
         Perform(WaitVisible(BestMatches), failing))))
  }

  /** The end of the task's `get_lyrics`: fetch, translate (keeping the lyrics
      when the translator raises), save. Nothing here escapes, and exactly one
      file is written, under the song's title, when non-empty lyrics were found. */
  function FinishTask(cwd: string, title: string, site: Site): (r: Run)
    ensures r.Ok()
    ensures |r.trace| > 0 && r.trace[0] == WaitVisible(LyricsBody)
    ensures forall i :: 0 <= i < |r.trace| ==> !r.trace[i].GoTo?
    ensures WritesOf(r.trace) ==
      if LyricsFromSong(site).Found()
      then [WriteFile(SavePath(cwd, Some(title)), TranslateOrKeep(LyricsFromSong(site).lyrics.value, site.translation))]
      else []
  {
    if !LyricsFromSong(site).Found() then Run([WaitVisible(LyricsBody)], None)
    else Then(Run([WaitVisible(LyricsBody)], None),
              SaveLyrics(cwd, Some(title), TranslateOrKeep(LyricsFromSong(site).lyrics.value, site.translation)))
  }

  /** After a successful search: nothing more when the list is empty; otherwise
      the first song is the only page opened, before anything is written, and
      its lyrics are saved under its title. Only that navigation can fail. */
  function AfterSearch(songs: seq<Song>, cwd: string, site: Site): (r: Run)
    ensures songs == [] ==> r == Run([], None)
    ensures songs != [] ==> |r.trace| > 0 && r.trace[0] == GoTo(songs[0].url)
    ensures forall i :: 0 < i < |r.trace| ==> !r.trace[i].GoTo?
    ensures r.Ok() <==> songs == [] || GoTo(songs[0].url) !in site.failing
    ensures !r.Ok() ==> r.fault == Some(ActionFailed(GoTo(songs[0].url)))
    ensures WritesOf(r.trace) ==
      if songs != [] && GoTo(songs[0].url) !in site.failing && LyricsFromSong(site).Found()
      then [WriteFile(SavePath(cwd, Some(songs[0].title)), TranslateOrKeep(LyricsFromSong(site).lyrics.value, site.translation))]
      else []
  {
    if songs == [] then Run([], None)
    else
      WritesOfAppend([GoTo(songs[0].url)], FinishTask(cwd, songs[0].title, site).trace);
      Then(Perform(GoTo(songs[0].url), site.failing), FinishTask(cwd, songs[0].title, site))
  }

  /** `get_lyrics()` of the task, after `song_name` has been read. Every exception
      is caught at the end of the function and logged, so the returned fault is
      what was logged and the caller always continues. The first song of the
      list is the one opened; a translator failure never escapes. */
  function TaskGetLyrics(songName: string, cwd: string, site: Site): (r: Run)
    ensures !TaskSearchAccepted(songName, site.failing) ==> r == TaskSearch(songName, site.failing)
    ensures var songs := GetSongListOrEmpty(site.results);
      && (TaskSearchAccepted(songName, site.failing) && songs == [] ==> r == Run(TaskSearchActions(songName), None))
      && (TaskSearchAccepted(songName, site.failing) && songs != [] ==>
            |r.trace| >= 5 && r.trace[..5] == TaskSearchActions(songName) + [GoTo(songs[0].url)])
    ensures r.fault != Some(TranslatorFailed)
    ensures var songs := GetSongListOrEmpty(site.results);
      WritesOf(r.trace) ==
        if TaskSearchAccepted(songName, site.failing) && songs != [] && GoTo(songs[0].url) !in site.failing
           && LyricsFromSong(site).Found()
        then [WriteFile(SavePath(cwd, Some(songs[0].title)), TranslateOrKeep(LyricsFromSong(site).lyrics.value, site.translation))]
        else []
  {
    TaskGetLyricsFrom(songName, GetSongListOrEmpty(site.results), cwd, site)
  }

  function TaskGetLyricsFrom(songName: string, songs: seq<Song>, cwd: string, site: Site): (r: Run)
    ensures !TaskSearchAccepted(songName, site.failing) ==> r == TaskSearch(songName, site.failing)
    ensures TaskSearchAccepted(songName, site.failing) ==>
      r == Run(TaskSearchActions(songName) + AfterSearch(songs, cwd, site).trace, AfterSearch(songs, cwd, site).fault)
    ensures TaskSearchAccepted(songName, site.failing) && songs != [] ==>
      |r.trace| >= 5 && r.trace[..5] == TaskSearchActions(songName) + [GoTo(songs[0].url)]
    ensures r.fault != Some(TranslatorFailed)
    ensures WritesOf(r.trace) ==
      if TaskSearchAccepted(songName, site.failing) && songs != [] && GoTo(songs[0].url) !in site.failing
         && LyricsFromSong(site).Found()
      then [WriteFile(SavePath(cwd, Some(songs[0].title)), TranslateOrKeep(LyricsFromSong(site).lyrics.value, site.translation))]
      else []
  {
    OpensFirstSong(songName, songs, cwd, site);
    NoWriteFiles(TaskSearch(songName, site.failing).trace);
    ThenWrites(TaskSearch(songName, site.failing), AfterSearch(songs, cwd, site));
    Then(TaskSearch(songName, site.failing), AfterSearch(songs, cwd, site))
  }

  lemma OpensFirstSong(songName: string, songs: seq<Song>, cwd: string, site: Site)
    ensures var r := Then(TaskSearch(songName, site.failing), AfterSearch(songs, cwd, site));
      TaskSearchAccepted(songName, site.failing) && songs != [] ==>
        |r.trace| >= 5 && r.trace[..5] == TaskSearchActions(songName) + [GoTo(songs[0].url)]
  {
    if TaskSearchAccepted(songName, site.failing) && songs != [] {
      var a := AfterSearch(songs, cwd, site);
      assert a.trace[..1] == [GoTo(songs[0].url)];
      PrefixOfAppend(TaskSearchActions(songName), a.trace, 1);
    }
  }

  lemma PrefixOfAppend(a: seq<Action>, b: seq<Action>, n: nat)
    requires n <= |b|
    ensures (a + b)[..|a| + n] == a + b[..n]
  {
  }

  /** An empty result list, or a scrape that raises, ends the call after the
      search: no navigation, no lyrics, no file. */
  lemma EmptyListNoNavigation(songName: string, cwd: string, site: Site)
    requires TaskSearchAccepted(songName, site.failing)
    requires |site.results| == 0 || exists i :: 0 <= i < |site.results| && ScrapeSong(site.results[i]).None?
    ensures TaskGetLyrics(songName, cwd, site) == Run(TaskSearchActions(songName), None)
    ensures forall i :: 0 <= i < |TaskGetLyrics(songName, cwd, site).trace| ==> !TaskGetLyrics(songName, cwd, site).trace[i].GoTo?
  {
  }

  /** With a non-empty list the first song is opened and its lyrics saved under
      its title, even when the write fails; a translator failure saves the
      untranslated lyrics instead. */
  lemma FirstSongSaved(songName: string, cwd: string, site: Site)
    requires TaskSearchAccepted(songName, site.failing)
    requires GetSongListOrEmpty(site.results) != []
    requires GoTo(GetSongListOrEmpty(site.results)[0].url) !in site.failing
    requires LyricsFromSong(site).Found()
    ensures TaskGetLyrics(songName, cwd, site) ==
      Run(TaskSearchActions(songName) + [GoTo(GetSongListOrEmpty(site.results)[0].url), WaitVisible(LyricsBody),
          WriteFile(PathJoin(cwd, GetSongListOrEmpty(site.results)[0].title + ".txt"),
                    TranslateOrKeep(LyricsFromSong(site).lyrics.value, site.translation))], None)
  {
    FirstSongSavedFrom(songName, GetSongListOrEmpty(site.results), cwd, site);
  }

  lemma FirstSongSavedFrom(songName: string, songs: seq<Song>, cwd: string, site: Site)
    requires TaskSearchAccepted(songName, site.failing)
    requires songs != [] && GoTo(songs[0].url) !in site.failing
    requires LyricsFromSong(site).Found()
    ensures TaskGetLyricsFrom(songName, songs, cwd, site) ==
      Run(TaskSearchActions(songName) + [GoTo(songs[0].url), WaitVisible(LyricsBody),
          WriteFile(PathJoin(cwd, songs[0].title + ".txt"),
                    TranslateOrKeep(LyricsFromSong(site).lyrics.value, site.translation))], None)
  {
    var saved := TranslateOrKeep(LyricsFromSong(site).lyrics.value, site.translation);
    SavePathOf(cwd, songs[0].title);
    var tail := [WaitVisible(LyricsBody), WriteFile(PathJoin(cwd, songs[0].title + ".txt"), saved)];
    assert FinishTask(cwd, songs[0].title, site).trace == tail;
    assert AfterSearch(songs, cwd, site) == Run([GoTo(songs[0].url)] + tail, None);
    SingleThenPairIsTriple(GoTo(songs[0].url), tail[0], tail[1]);
  }

  /** One action followed by two is the three-action display. */
  lemma SingleThenPairIsTriple(a: Action, b: Action, c: Action)
    ensures [a] + [b, c] == [a, b, c]
  {
  }

  /** `main()` of the task: log in when the login link is visible (with the
      corrected, bounded loop), then fetch the lyrics unless the login raised. */
  datatype TaskRun = TaskRun(trace: seq<Action>, stoppedBy: Option<TaskLogin.LoginEnd>)

  function TaskMain(loginLinkVisible: bool, tries: seq<TaskLogin.Try>, songName: string, cwd: string, site: Site): (r: TaskRun)
    ensures |r.trace| > 0 && r.trace[0] == GoTo(LyricsUrl)
    ensures !loginLinkVisible ==> r == TaskRun([GoTo(LyricsUrl)] + TaskGetLyrics(songName, cwd, site).trace, None)
    ensures loginLinkVisible ==>
      var login := TaskLogin.AttemptLoginBounded(TaskLogin.Username, TaskLogin.Password, tries);
      && (r.stoppedBy.None? <==> login.result == TaskLogin.LoggedIn)
      && (r.stoppedBy.None? ==> r.trace == [GoTo(LyricsUrl)] + login.trace + TaskGetLyrics(songName, cwd, site).trace)
      && (r.stoppedBy.Some? ==> r.trace == [GoTo(LyricsUrl)] + login.trace && r.stoppedBy == Some(login.result))
      && login.attempts <= TaskLogin.RetriesCount
      && (|tries| >= TaskLogin.RetriesCount ==> r.stoppedBy != Some(TaskLogin.Unfinished))
  {
    if !loginLinkVisible then
      TaskRun(OpenBrowser(site).trace + TaskGetLyrics(songName, cwd, site).trace, None)
    else if TaskLogin.AttemptLoginBounded(TaskLogin.Username, TaskLogin.Password, tries).result == TaskLogin.LoggedIn then
      TaskRun(OpenBrowser(site).trace + TaskLogin.AttemptLoginBounded(TaskLogin.Username, TaskLogin.Password, tries).trace
        + TaskGetLyrics(songName, cwd, site).trace, None)
    else
      TaskRun(OpenBrowser(site).trace + TaskLogin.AttemptLoginBounded(TaskLogin.Username, TaskLogin.Password, tries).trace,
        Some(TaskLogin.AttemptLoginBounded(TaskLogin.Username, TaskLogin.Password, tries).result))
  }

  /** `get_browser()` of the task: open the site; an exception is logged and
      returned rather than raised, so the task carries on whether or not the
      open was accepted. */
  function OpenBrowser(site: Site): (r: Run)
    ensures r.Ok()
    ensures r.trace == [GoTo(LyricsUrl)]
  {
    Run(Perform(GoTo(LyricsUrl), site.failing).trace, None)
  }
}
