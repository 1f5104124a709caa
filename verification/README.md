# Robocorp practice scripts — a Dafny model of their decision logic

The repository holds three RPA scripts that drive a browser.

- `order_robots.py` fills the robot-order form of robotsparebinindustries.com from a CSV file. It retries while the site's error banner shows, downloads the robot preview images, stacks them into one image and writes a PDF receipt per order.
- `get_lyrics.py` is interactive. It asks for credentials in a dialog and logs in to lyrics.com with up to four tries. It then either opens a URL or searches for a song and lets the user pick one from the results. Finally it translates the lyrics to Vietnamese and saves them as `<title>.txt`.
- `tasks.py` is the unattended variant. It logs in with fixed credentials, searches the song given as a process argument, opens the first result and saves its lyrics, translated when the translator answers.

The model keeps the decisions these scripts make and replaces everything they delegate by oracles:
- A browser is the set of actions it rejects. An action in `failing` raises whenever it is issued.
- Visibility checks of the error banner are a `seq<bool>`. A check past the recorded ones finds the banner gone.
- Dialog answers, search results, the page title, the lyrics text and the translator's answer are inputs.
- Images are their width and height.

Every operation returns the trace of actions it attempted, in order. It also returns the fault that ended it early, if any, mirroring Python's exception flow (`Actions.Then`: an exception skips the rest).

Modules, one per file:
- `Actions`: actions, faults, runs.
- `Text`: `str.strip`, `str(n)`, `os.path.join`.
- `BannerRetry`: `retry_on_error`.
- `ImageLayout`: `merge_images`.
- `RobotImages`: download naming and output paths.
- `OrderForm`: `input_field_value` and the field loop of `fill_order_form`.
- `OrderWorkflow`: `fill_order_form`, `generate_order_details`, `generate_order_pdf` and `process_orders_from_csv`.
- `OrderScenarios`: whole-row examples.
- `Songs`: `get_song_list` and `display_song_list`.
- `LyricsLogin`: `login` of get_lyrics.py.
- `TaskLogin`: `perform_login` and `attempt_login` of tasks.py, plus a corrected loop.
- `LyricsFlow`: both `get_lyrics`, `get_lyrics_from_song`, `translate_lyrics`, `save_lyrics_to_file`, `get_browser` of get_lyrics.py, and `main` of tasks.py.

Three facts about the order script shape the model:
- The modal is clicked unconditionally, so a rejected click raises.
- The retry ceiling is 10.
- Apart from the radio click inside `input_field_value` (order_robots.py:61-64), no exception is caught on the order path. The first exception of a row therefore ends the whole batch.

## Model

| member | source | states |
|---|---|---|
| BannerRetry.RetryLoop | order_robots.py:71-75 | From a state with `count` clicks made, the loop adds clicks only on the retry selector, until the banner is first seen gone or the ceiling is reached. |
| BannerRetry.RetryOnError | order_robots.py:68-78 | Every click targets the retry selector and goes through the browser. When the banner shows at the first check and the ceiling is positive, a rejected click raises after that one attempt and no warning is printed. Otherwise the call completes. Its click count is then the length of the initial visible run, capped at `max_retries`, or 0 for a ceiling of 0 or less. It never exceeds the ceiling. The warning is printed exactly when the call completes with the count equal to the ceiling. |
| BannerRetry.VisibleForKChecks | order_robots.py:71-78 | If the banner is visible for exactly k checks, with k below the ceiling, the call makes exactly k accepted clicks on the retry target and prints no warning. |
| BannerRetry.NeverClears | order_robots.py:71-78 | A banner that never clears costs exactly `max_retries` accepted clicks. The call ends on the warning and returns normally. |
| BannerRetry.RejectedRetryClick | order_robots.py:71-73 | A rejected retry click while the banner shows raises out of the loop after one click, with no warning. |
| BannerRetry.WarningDoesNotMeanBannerStayed | order_robots.py:77-78 | The warning is also printed when the banner cleared at the check that ended the loop, and for a ceiling of 0 with no banner at all. |
| ImageLayout.FloorHalf | order_robots.py:134 | `// 2` rounds towards minus infinity: `2q <= a < 2q + 2`. |
| ImageLayout.PlaceFrom | order_robots.py:132-136 | Starting at offset y, each image is placed at y plus the heights of the images before it, and at x = (page width − image width) // 2. |
| ImageLayout.MergeImages | order_robots.py:125-138 | The canvas is the page width wide and as tall as the sum of the heights. It places one image per input. Image i's y is the sum of the heights of images 0..i-1, and its x is the floor of half the spare width. |
| ImageLayout.StackedWithoutGaps | order_robots.py:132-136 | Consecutive images touch without overlapping, and every image ends inside the canvas. |
| ImageLayout.Centred | order_robots.py:134 | The right margin equals the left margin, or exceeds it by one pixel. |
| ImageLayout.StartsInsideIffFits | order_robots.py:134 | An image starts inside the canvas exactly when it is no wider than the page. |
| ImageLayout.WideImageStartsLeftOfCanvas | order_robots.py:125-134 | A 601-pixel image on the default 600-pixel page is pasted at x = −1, as floor division requires. |
| Text.Strip | get_lyrics.py:136 | `strip()` yields an infix of its input. Only whitespace is removed before and after it, and a non-empty result begins and ends with non-whitespace. |
| Text.StripFixedPoints | get_lyrics.py:136 | Stripping leaves a string unchanged exactly when it is empty or has non-whitespace at both ends. |
| Text.StripIdempotent | get_lyrics.py:146 | Stripping twice is stripping once. |
| Text.StripEmptyIffBlank | tasks.py:152 | A text strips to the empty string exactly when it is all whitespace, which is the "lyrics not found" case. |
| Text.NatToString | order_robots.py:101 | `f"{i}"` is a non-empty string of decimal digits with no leading zero. |
| Text.NatToStringRoundTrip | order_robots.py:101 | Reading the decimal rendering back gives the number again. |
| Text.NatToStringInjective | order_robots.py:101 | Different indices render differently. |
| Text.PathJoin | order_robots.py:101 | `os.path.join(a, b)` returns b when b is absolute, and otherwise a, a separator only when a lacks one, then b. |
| RobotImages.ImagePathInjective | order_robots.py:101 | Two element indices never share an image path, in any folder. |
| RobotImages.KeptFrom | order_robots.py:98-100 | The kept positions are exactly the elements with a non-empty `src`, in ascending order. |
| RobotImages.DownloadFrom | order_robots.py:98-105 | From element i on, the loop downloads each kept element in order to the path named by its own index, and stops at the first download that raises. |
| RobotImages.DownloadRobotImages | order_robots.py:90-105 | There is one download per element with a `src`, in document order, stopping at the first failure. When nothing fails, the returned paths are the kept elements' paths in order. |
| RobotImages.DownloadedPathsDistinct | order_robots.py:98-105 | The returned paths are pairwise distinct, and every element with a `src` has its path among them. |
| RobotImages.NamesKeepGaps | order_robots.py:98-103 | Files are named by element position, not by download count. A missing `src` at position 1 leaves `robot_part_0.png` and `robot_part_2.png`. |
| RobotImages.OrderPathsInjective | order_robots.py:109-123 | Different order numbers get different PDF paths and different merged-image paths, and the order number appears verbatim in the PDF path. |
| OrderForm.InputFieldValue | order_robots.py:53-66 | An empty value does nothing. Otherwise the selector alone chooses select-by-value, a radio click or text input, on that control. A rejected radio click is swallowed; any other rejected action raises. |
| OrderForm.FillFrom | order_robots.py:45-46 | The field loop visits the table in order, one outcome per field. It stops right after the first field that raises, and only there. |
| OrderForm.FillFields | order_robots.py:36-46 | Filling completes exactly when no select or text action raises. A completed fill issues Head, Body, Legs and Address, in table order, skipping empty values. A fill that fails was ended by an action the browser rejects. |
| OrderForm.SameRaisesSameFill | order_robots.py:45-46 | Two browsers that agree on which fields raise produce the same fill, in trace and fault. |
| OrderForm.RadioFailureSwallowed | order_robots.py:60-64 | A rejected radio click changes nothing: the run equals the one of a browser that accepts every radio click, so the later fields are still applied. |
| OrderForm.EmptyFieldUntouched | order_robots.py:43-56 | A control whose column is empty or absent receives no action at all. |
| OrderWorkflow.RetryClicks | order_robots.py:68-75 | A banner costs at most 10 clicks, and none when the first check finds it gone. |
| OrderWorkflow.Retry | order_robots.py:68-78 | `retry_on_error` with its default ceiling completes exactly when the retry click is accepted or the banner is absent at the first check. A completed call is one click per visible check, up to 10. A failed one is a single rejected click. |
| OrderWorkflow.GenerateOrderPdf | order_robots.py:107-123 | It first writes the merged image, page-wide and as tall as the images stacked. A completed call then writes the PDF under the order's PDF path, with this receipt and embedding the image just written. A failure is the write that raised. |
| OrderWorkflow.GenerateOrderDetails | order_robots.py:80-88 | It first waits for the receipt. A completed call ends by writing the order's PDF with this page's receipt. A failure is the last action attempted, rejected by the browser. |
| OrderWorkflow.FillOrderForm | order_robots.py:34-51 | A completed form had every field filled and the "Order" click accepted. It ends on writing the PDF named after the row's order number. |
| OrderWorkflow.ProcessRow | order_robots.py:26-31 | Every row starts by clicking the modal. A completed row has written its PDF, named after its order number, and ends on a click asking for another order. |
| OrderWorkflow.GenerateOrderDetailsTrace | order_robots.py:80-123 | When nothing raises, the order details are: wait for the receipt, the downloads, the merged image (page-wide, as tall as the kept images), then the PDF named after the order. |
| OrderWorkflow.FillOrderFormTrace | order_robots.py:34-51 | A completed form is the planned field actions, one "Order" click plus its retries, then the order details. |
| OrderWorkflow.CompletedRowPhases | order_robots.py:26-32 | A completed row runs in this order: modal, fields, submit and its retries, details, "Order another" and its retries. The fields are filled once, before the first submit. |
| OrderWorkflow.SubmitClickCount | order_robots.py:48-49 | A completed row clicks "Order" once plus once per retry, and the retries are at most 10. |
| OrderWorkflow.RunUntilFault | order_robots.py:26-32 | The rows run in order until the first that raises. That row's fault ends the batch and its partial trace is the last part of the batch trace. |
| OrderWorkflow.ProcessOrders | order_robots.py:21-32 | All rows before the first failing one complete. The batch succeeds exactly when every row does, and no later row is touched. |
| OrderWorkflow.CompletedOrdersHavePdfs | order_robots.py:21-32 | Every completed row's PDF is in the batch trace, whatever happened after it. |
| OrderScenarios.QuietBatch | order_robots.py:26-32 | On a page that never fails or shows the banner, a one-row batch completes with: modal, planned fields, one submit, details, one "Order another". |
| OrderScenarios.FullRowOnQuietPage | order_robots.py:36-66 | With all four fields set: select Head, click the Body radio, type Legs, type Address, then a single "Order" click with no retry. |
| OrderScenarios.RowWithoutBody | order_robots.py:45-56 | With Body empty, Head, Legs and Address are still applied in order. |
| OrderScenarios.RowWithoutBodyNoRadio | order_robots.py:55-62 | With Body empty, no action of the batch touches the radio group. |
| Songs.ScrapeSong | get_lyrics.py:134-154 | A block yields a song exactly when it has a label link and a thumbnail. The title is the first label link, stripped, and the URL is its href. The artist is the last label link, stripped. The album is the second album link, or "No album" when there is none. |
| Songs.SingleLinkTitleIsArtist | get_lyrics.py:135-146 | With a single label link the song's title is its artist name. Scraped names never start or end with whitespace. |
| Songs.GetSongList | get_lyrics.py:131-155 | The list holds one song per block, in order, exactly when no block raises. |
| Songs.GetSongListOrEmpty | tasks.py:126-146 | The task's list is empty exactly when there are no blocks or a block raises. Otherwise it has one song per block, the first from the first block. |
| Songs.SongLabel | get_lyrics.py:161 | The label is the title, then " by ", then the artist name. |
| Songs.OptionLabels | get_lyrics.py:159-162 | There is one option per song, in list order, labelled "title by artist". |
| Songs.FirstWithLabel | get_lyrics.py:176-179 | The result is None exactly when no song's label equals the pick. Otherwise it is the first song whose label does. |
| Songs.DisplaySongList | get_lyrics.py:157-179 | The offered options are the labels. A chosen song is in the list and carries the picked label, and it is the first song that does. Nothing is chosen exactly when no option matches. |
| Songs.PickedOptionYieldsSong | get_lyrics.py:176-179 | Picking the k-th option yields a song with that label at or before position k. With pairwise distinct labels it yields the k-th song. |
| Songs.LabelsCanCollide | get_lyrics.py:161-177 | Two different songs can share a label, and picking it always yields the earlier one. |
| LyricsLogin.PerformLogin | get_lyrics.py:60-66 | The login opens the form first and submits last. Each credential is typed into its own field: the username into the username field and the password into the password field. |
| LyricsLogin.LoginFrom | get_lyrics.py:69-88 | From counter value `retries`, the loop makes at most 4 − retries attempts, each issuing the four login actions. |
| LyricsLogin.Login | get_lyrics.py:68-90 | Let k be the number of leading rejected rounds. If k ≥ 4, `login` gives up after exactly 4 attempts. Otherwise round k decides: it returns True on attempt k+1 when credentials are given, and cancels after k attempts when one is empty. |
| LyricsLogin.CancelFirst | get_lyrics.py:75-77 | An empty username or password in the first dialog returns False before any browser action. |
| LyricsLogin.AttemptsReplayRounds | get_lyrics.py:72-87 | Attempt i runs `perform_login` with the credentials of dialog round i. |
| LyricsLogin.FourRejections | get_lyrics.py:86-90 | Four rejected rounds return False after exactly four attempts. |
| TaskLogin.EnterTextRun | tasks.py:178-186 | `enter_text_in_element` completes exactly when neither the click nor the typing raises. Its trace is the click, then the keys. |
| TaskLogin.PerformLogin | tasks.py:60-70 | Whatever step raises, `perform_login` fails with `LoginError("Login attempt failed")`. Its trace is the steps issued so far. |
| TaskLogin.LoginStepsPerformAll | tasks.py:62-67 | The body of `perform_login` issues its six actions one at a time, stopping at the first rejected one. |
| TaskLogin.PerformLoginStops | tasks.py:60-70 | The login completes exactly when none of its six actions is rejected. Otherwise it stops at a non-empty prefix of them whose last action is rejected. |
| TaskLogin.AttemptFromCounts | tasks.py:85-94 | In the loop as written, the counter rises by one for each pass whose `perform_login` raised, and by nothing for a pass that showed the error message. |
| TaskLogin.AttemptFrom | tasks.py:72-97 | From pass i with counter `retries`, the as-written loop uses no more passes than are recorded. The counter never decreases and never passes 4. |
| TaskLogin.AttemptFromEnds | tasks.py:72-97 | The loop returns on the first pass that logs in. It raises "Exceeded" exactly when the counter reaches 4, and "cancelled" exactly for empty credentials. Otherwise it is still looping when the recorded passes run out. |
| TaskLogin.AttemptLogin | tasks.py:72-97 | Over recorded tries, the final counter equals the number of raised passes. The loop logs in on its last pass only and ends only as described for AttemptFromEnds. |
| TaskLogin.ReturnsOnFirstSuccess | tasks.py:86-89 | The first pass that logs in ends the loop with a return, provided fewer than four earlier passes raised. |
| TaskLogin.CounterStep | tasks.py:87-94 | A pass that shows the error message leaves the counter unchanged. A pass that raised moves it by exactly one. |
| TaskLogin.ErrorEveryTimeNeverEnds | tasks.py:75-97 | If the site shows its error after every submitted login, the loop never leaves, however many tries are recorded, and the counter stays at 0. |
| TaskLogin.FixedCredentialsNeverCancel | tasks.py:79-83 | With the hard-coded credentials the cancel branch is never taken. |
| TaskLogin.BoundedFrom | tasks.py:72-97 | From pass k, the corrected loop makes at most 4 − k further passes. |
| TaskLogin.BoundedFromEnds | tasks.py:72-97 | In the corrected loop, every pass that does not log in uses a retry. It returns on the first pass that logs in; it raises "Exceeded" only after 4 failed passes, and "cancelled" exactly for empty credentials. |
| TaskLogin.AttemptLoginBounded | tasks.py:72-97 | The corrected loop makes at most 4 passes and always reaches a verdict with 4 recorded tries. It logs in exactly when one of the first four passes would, and then on the first such pass: no earlier pass logs in. It cancels exactly for empty credentials, and raises "Exceeded" only after 4 passes. |
| LyricsFlow.FileName | get_lyrics.py:198 | The file name is the title's text followed by ".txt", and "None" when there is no title. |
| LyricsFlow.FileNameInjective | tasks.py:167 | Distinct titles give distinct files, but a missing title shares "None.txt" with a song titled "None". |
| LyricsFlow.SavePath | get_lyrics.py:198-199 | The path ends with the file named after the title. It lies under the working directory unless the title starts with '/', in which case it is that file name alone. |
| LyricsFlow.LyricsFromSong | get_lyrics.py:181-190 | It issues one wait. It yields lyrics exactly when neither the wait nor the lookup raises, and those lyrics are the body text with whitespace stripped. |
| LyricsFlow.SaveLyrics | get_lyrics.py:196-206 | Saving writes the file under `os.path.join(cwd, name)` and never raises, even when the write fails. |
| LyricsFlow.Search | get_lyrics.py:101-103 | The search completes exactly when none of its three actions is rejected. It neither navigates nor writes. |
| LyricsFlow.SearchAndPick | get_lyrics.py:100-110 | Search mode completes when the search runs, the scrape succeeds and a chosen song's URL opens. The title is the chosen song's title, or None when nothing is chosen. It navigates only when a song was chosen. |
| LyricsFlow.OpenUrl | get_lyrics.py:111-115 | URL mode completes when navigation, the wait and the title lookup succeed. The title is the page heading. |
| LyricsFlow.FinishInteractive | get_lyrics.py:116-122 | It first waits for the lyrics. When non-empty lyrics were found and translated, exactly one file is written: the translation, under the title's name. Otherwise nothing is written. A translator failure is the only exception that escapes, and it escapes exactly when lyrics were found but not translated. |
| LyricsFlow.GetLyrics | get_lyrics.py:94-122 | A file is written only when the song was located and non-empty lyrics were found and translated. Then exactly one is written: the translation under the located title. A translator failure escapes exactly when the song was located and lyrics were found. A scrape that raises after the search ends the call with nothing written. |
| LyricsFlow.Locate | get_lyrics.py:100-115 | Locating writes nothing and never fails on the translator. When it completes, the title is the page heading in URL mode. In search mode it is the chosen song's title, or None when nothing was chosen. |
| LyricsFlow.GetLyricsFrom | get_lyrics.py:94-122 | For any scrape outcome: a failure while locating is the result. The navigation's actions come first, so the lyrics are fetched after it. Writes and the translator failure are as stated for GetLyrics. |
| LyricsFlow.PickedSongSavedUnderItsTitle | get_lyrics.py:106-120 | A picked song's lyrics are saved under its title after exactly: search, open, wait. |
| LyricsFlow.NoPickSavedAsNone | get_lyrics.py:97-120 | Without a matching pick there is no navigation, and whatever lyrics the results page holds are saved as "None.txt". |
| LyricsFlow.UrlSavedUnderPageTitle | get_lyrics.py:111-120 | In URL mode the lyrics are saved under the page's title heading. |
| LyricsFlow.GetBrowser | get_lyrics.py:18-31 | The site is opened first. If that raises, the exception is logged and nothing else happens. `login()` runs exactly when the mode dialog answered "Login". `get_lyrics()` then runs whatever the login returned: the session ends with its actions, and the logged exception is exactly its fault. |
| LyricsFlow.FailedLoginStillSearches | get_lyrics.py:22-28 | A login that was cancelled or gave up is followed by the same lyrics run, with the same logged error, as a guest session. |
| LyricsFlow.TranslateOrKeep | tasks.py:157-163 | The result is the translation, or the lyrics unchanged when the translator raises. |
| LyricsFlow.TaskSearch | tasks.py:104-106 | The task's search completes exactly when none of its four actions is rejected. It neither navigates nor writes. |
| LyricsFlow.FinishTask | tasks.py:117-122 | It never fails, and it first waits for the lyrics without navigating. When non-empty lyrics were found, exactly one file is written under the song's title. Its text is the translation, or the lyrics when the translator raises. Otherwise nothing is written. |
| LyricsFlow.AfterSearch | tasks.py:108-122 | An empty list does nothing. Otherwise the first action opens the first song. That is the only navigation, so it comes before any write. Only that navigation can fail. Exactly one file is written, under the first song's title, when the song opens and lyrics are found. |
| LyricsFlow.TaskGetLyrics | tasks.py:100-124 | After a successful search with a non-empty list, the fifth action opens the first song. An empty list ends the call after the search. A translator failure never escapes. Exactly one file is written, under the first song's title, when the search runs, the list is non-empty, the song opens and lyrics are found. Otherwise none is. |
| LyricsFlow.EmptyListNoNavigation | tasks.py:108-111 | An empty result list, or a scrape that raises, ends the call after the search, with no navigation. |
| LyricsFlow.FirstSongSaved | tasks.py:113-120 | The first song's lyrics are saved under its title, translated or, when the translator raises, untranslated. |
| LyricsFlow.TaskMain | tasks.py:34-44 | The task first opens the site, and goes on whatever the open did. Without a login link the lyrics are then fetched at once. Otherwise they are fetched exactly when the corrected login loop logs in, after at most 4 passes. |
| LyricsFlow.OpenBrowser | tasks.py:46-52 | Opening the site is one action, and the call completes even when the browser rejects it: the exception is returned, not raised. |

## Left out

- Selenium, the Assistant dialogs, Windows `send_keys`, HTTP, PIL and the PDF renderer are oracles or recorded actions, not behaviour. Pixels are not modelled; images are (width, height).
- `time.sleep` calls, print output and logging: they have no effect on the decisions. The "Max retries reached" warning is kept as `ceilingReached`.
- CSV parsing: rows arrive as maps from column name to cell text.
- File contents: a write is a `WriteFile` action carrying its path and text.
- `order_robots()`, `show_guest_or_login()`, `search_form()`, `login_form()` and `close_all_browsers()`: they open or close the browser or only read a dialog. Their answers are inputs to the model. Opening the browser in `get_browser()` of get_lyrics.py and of tasks.py is the action `GoTo(LyricsUrl)`.
- dop_pratice.py is not part of this model: it prints one asset lookup and holds no logic.
- `validators.url` is the boolean `isUrl`, and the translator is the `Option` answer in `Site`.
- Text.IsSpace: Python's `isspace` on characters above U+00FF (such as U+2028) is not modelled; only the ASCII and Latin-1 whitespace is.
- TaskLogin.Passes: the `css:p.err` visibility check after a login is an input per pass. It is not an action of the trace, and it is taken never to raise.
- LyricsLogin.PerformLogin: a browser exception inside the interactive login is not modelled. The actions are taken never to raise.
- LyricsFlow.GetBrowser: because `login()` is taken never to raise, the model always reaches `get_lyrics()` once the site is open. In the code, an exception in `login()` is caught by `get_browser` and skips `get_lyrics()`.
- Text.PathJoin: only POSIX `os.path.join` is modelled. tasks.py also runs on Windows (tasks.py:10, tasks.py:183), where the join at tasks.py:167 uses backslash separators and treats drive-prefixed and rooted names differently. The same holds for the joins of order_robots.py.
- OrderWorkflow.GenerateOrderDetails: the receipt read (order_robots.py:83), `os.makedirs` (order_robots.py:92), the element lookup (order_robots.py:93) and the per-image `src` reads (order_robots.py:99) are taken never to raise.
- BannerRetry.RetryOnError: a browser rejects an action always or never, so a retry click that fails only after earlier clicks on the same element were accepted is not modelled. Retry clicks are checked against the page's `retryFailing` set, separate from the row's other actions, because the page may have changed after the first click. The banner check itself is taken never to raise.
- LyricsFlow.TaskGetLyrics: the `.get('title', song_name)` fallback never applies, because a scraped song always has a title, so the search term is never used as file name.
- LyricsFlow.TaskMain: it uses the corrected login loop of the finding below; the as-written loop is `TaskLogin.AttemptLogin`. Exceptions escaping `get_lyrics` cannot happen, because that function catches everything.
- LyricsFlow.SaveLyrics: a failing write is logged and swallowed, so the model records the write attempt and never a fault.
- Reading `song_name` from the process arguments is an input; a missing argument is not modelled.

## Findings

| source | as written | input that shows it | evidently intended | confidence | as-written member | corrected member |
|---|---|---|---|---|---|---|
| tasks.py:72-97 | `retries` only moves in the `except LoginError` branch (lines 92-94); a login that completes but shows the `p.err` message loops again without counting | credentials the site rejects every time: `perform_login` never raises and `p.err` is always visible, so `attempt_login` never returns or raises | every failed pass uses one of the four retries, so the loop ends after at most four passes | not executed | TaskLogin.ErrorEveryTimeNeverEnds | TaskLogin.AttemptLoginBounded |
