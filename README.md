# Portfolio site model

A Dafny model of the behaviour behind the sujayai/frontend portfolio site.
Each module below follows one source file:

- `Terminal`: the hero terminal. It keeps a line buffer, a history of input and output entries and a `busy` flag. A submitted command is looked up in a fixed table once the 80 ms delay has passed.
- `EasterEggs`: the provider of the four visual toggles. The `g`/`p`/`m`/`t` shortcuts flip them. A ten-key window watches for the Konami sequence.
- `App`: the shell. It holds the active tab and the mobile menu, and handles `switchTab` events (a string or `{tab, slug}`). It also maps each tab to the sections shown and the toggles to the background layers.
- `BlogData`: the three shipped posts, their categories, and ISO dates. For ISO dates, string order and calendar order agree.
- `NewestFirst`: the newest-first sort that `Blog` and `FeaturedBlog` apply in place to the shared post array. It is an insertion sort on an array, proved against a functional specification.
- `Blog`: the listing pipeline (category filter, then search, then sort, then slice). Also the load-more step, the category, search and card handlers, and the article view.
- `FeaturedBlog`: picks the newest post and builds the two `switchTab` payloads.
- `BlogPost`: looks up an article and renders its content. Content is split into fenced code blocks and text. Code blocks get a language and numbered lines; text lines are classified into headings, emphasis, inline code and paragraphs.
- `Contact`: the contact form. It checks for missing fields after trimming, then checks the e-mail pattern. It percent-encodes the fields the way `encodeURIComponent` does and builds the `mailto:` link.
- `ParticleField`: the particle population. Each update moves and ages every particle, drops expired ones, and may spawn one more while the count is under 30.
- `MatrixBackground`: the matrix rain. It keeps per-column drop counters in an array, updated in place once per 80 ms frame.
- `AppScript`: the static page script. It covers `escapeHtml`, the colour channels of `hexToRgba`, the typed-text effect, the agent terminal transcript and the post meta line.

`Text` holds the string operations the components share:

- the ECMAScript white-space set used by `trim` and the regex class `\s`;
- `trim`, ASCII `toLowerCase` and `includes`;
- `split` on one character, and `join`.

`Wrappers` holds `Option`.

How the model handles time, randomness and the host:

- Timers and animation frames are discrete steps. Frame times are parameters.
- Every `Math.random()` value is a parameter in `[0, 1)`.
- An alert is returned as which of the handler's alerts it is, and `Contact.Message` gives its text.
- Whether `window.location` throws is a parameter.

## Model

| member | source | states |
|---|---|---|
| Text.TrimStartShape | src/components/interactive/Terminal.tsx:82 | Trimming the front leaves a suffix. What it drops is white space, and what it keeps does not start with white space. |
| Text.TrimEndShape | src/components/interactive/Terminal.tsx:82 | Trimming the end leaves a prefix. What it drops is white space, and what it keeps does not end with white space. |
| Text.TrimIsCore | src/components/interactive/Terminal.tsx:82 | `trim` returns the middle of the string between two runs of white space, and that middle starts and ends with a non-space character. |
| Text.TrimEmptyIffAllSpace | src/components/interactive/Terminal.tsx:83 | A string trims to the empty string exactly when all of it is white space. |
| Text.TrimPadded | src/components/interactive/Terminal.tsx:82 | Trimming white space around a core that starts and ends with a non-space character gives that core. |
| Text.ContainsAt | src/components/sections/Blog.tsx:89-93 | `includes` holds exactly when the text occurs at some position. |
| Text.SplitThenJoin | src/components/sections/BlogPost.tsx:300 | Splitting a text segment into lines loses nothing: joining the lines with the newline gives back the segment. |
| Text.JoinThenSplit | src/components/providers/EasterEggsProvider.tsx:41 | A comma join of comma-free key names can be split back into those names, so the joined comparison loses nothing for them. |
| Terminal.Initial | src/components/interactive/Terminal.tsx:11-13 | After mount the buffer is empty, the terminal is not busy, and the history holds only the welcome entry. |
| Terminal.KeysKeepValid | src/components/interactive/Terminal.tsx:84-90 | `busy` holds exactly while a command waits for its timer, for every key and every timer step. The timer step always clears `busy`. |
| Terminal.PrintableAppends | src/components/interactive/Terminal.tsx:107-110 | On an idle terminal, a one-character key without meta, ctrl or alt appends exactly that character to the buffer. History and busy are unchanged. |
| Terminal.BackspaceRemovesLast | src/components/interactive/Terminal.tsx:102-105 | Backspace removes the last character of the buffer (none if it is empty). It changes nothing else. |
| Terminal.BusyIgnoresKeys | src/components/interactive/Terminal.tsx:94 | While busy, every key leaves the state unchanged. |
| Terminal.EnterSubmitsBuffer | src/components/interactive/Terminal.tsx:95-100 | Enter empties the buffer. A non-blank line is echoed after the prompt and its trimmed, lower-cased form waits for the timer. |
| Terminal.BlankLineIgnored | src/components/interactive/Terminal.tsx:82-83 | A line that is all white space only clears the buffer: nothing is echoed and the terminal does not become busy. |
| Terminal.SubmissionAppendsTwoEntries | src/components/interactive/Terminal.tsx:85-90 | A submission followed by its timer adds the input entry and one output entry. For `clear`, the history becomes exactly one empty output entry. The terminal ends idle. |
| Terminal.NormalizePadded | src/components/interactive/Terminal.tsx:82 | Normalising strips the surrounding white space and lower-cases the core. |
| Terminal.HelpInAnyCase | src/components/interactive/Terminal.tsx:82-87 | `HeLp` with white space around it normalises to `help`. |
| Terminal.ResolveCases | src/components/interactive/Terminal.tsx:55-88 | A table name other than `clear` renders that command; `clear` renders the empty element; anything else gives the unknown-command message. Each case holds in both directions. |
| Terminal.HelpListsTable | src/components/interactive/Terminal.tsx:56-61 | The `help` text lists exactly the table's commands other than `help`. `help` itself resolves to the listing, and every listed name resolves to a command (or, for `clear`, to the empty element). |
| Terminal.ConstructorBreaksRender | src/components/interactive/Terminal.tsx:87-90 | As written, `constructor` is submitted, and after the timer the terminal is idle with a plain object as its last output, so the history no longer renders. |
| Terminal.OnTimerRenders | src/components/interactive/Terminal.tsx:87-131 | The lookup restricted to the table keeps every output renderable, and `constructor` gets the unknown-command message. |
| Terminal.Console.constructor | src/components/interactive/Terminal.tsx:11-45 | The component's fields start in the initial state. |
| Terminal.Console.KeyDown | src/components/interactive/Terminal.tsx:93-111 | The `keydown` handler moves the fields to `OnKey` of the old state and keeps `busy` tied to a pending command. |
| Terminal.Console.TimerFires | src/components/interactive/Terminal.tsx:86-90 | When the delay ends, the fields move to `OnTimer` of the old state and the terminal is idle. |
| Terminal.TypeLineAppends | src/components/interactive/Terminal.tsx:107-110 | Typing a line key by key on an idle terminal appends the whole line to the buffer. |
| Terminal.TypedLineIsItsKey | src/components/interactive/Terminal.tsx:82-110 | Typing a line with no padding and no upper-case letters on the fresh terminal leaves it in the buffer. It is then looked up as itself, and the terminal stays idle. |
| Terminal.TypingProto | src/components/interactive/Terminal.tsx:82-110 | `__proto__` can be typed on the fresh terminal and normalises to itself. |
| Terminal.ProtoLocksTerminal | src/components/interactive/Terminal.tsx:87-90 | As written, submitting `__proto__` leaves the terminal busy forever, and every later key is ignored. |
| Terminal.ProtoIsUnknownCommand | src/components/interactive/Terminal.tsx:87-88 | With an own-property lookup, `__proto__` is reported as an unknown command and the terminal is free again. |
| EasterEggs.InitialState | src/components/providers/EasterEggsProvider.tsx:17-20 | Matrix, particles and grid start on; the glow starts off; the key window starts empty. |
| EasterEggs.ShortcutFlipsOne | src/components/providers/EasterEggsProvider.tsx:34-37 | `g`, `p`, `m` and `t` each negate exactly their own toggle. Any other key changes none. |
| EasterEggs.ShortcutTwiceRestores | src/components/providers/EasterEggsProvider.tsx:22-37 | Pressing the same key twice restores every toggle. |
| EasterEggs.WindowIsLastKeys | src/components/providers/EasterEggsProvider.tsx:39-40 | After any history of keys, the window is the last `min(n, 10)` keys in order, so it never holds more than ten. |
| EasterEggs.KonamiJoinShape | src/components/providers/EasterEggsProvider.tsx:29 | The Konami key names contain no comma and join to a non-empty string. |
| EasterEggs.KonamiMatchIffEqual | src/components/providers/EasterEggsProvider.tsx:41 | For comma-free keys, the comma-joined comparison holds exactly when the window equals the Konami sequence. |
| EasterEggs.NoMatchBeforeTenKeys | src/components/providers/EasterEggsProvider.tsx:39-41 | Fewer than ten comma-free keys never match. |
| EasterEggs.KonamiTurnsGlowOn | src/components/providers/EasterEggsProvider.tsx:41-43 | When the last ten keys spell the sequence, the glow ends on whatever it was, and the other toggles are unchanged. |
| EasterEggs.Provider.constructor | src/components/providers/EasterEggsProvider.tsx:17-30 | The fields start in the initial state with an empty window. |
| EasterEggs.Provider.ToggleMatrix | src/components/providers/EasterEggsProvider.tsx:22 | Only `showMatrix` is negated. |
| EasterEggs.Provider.ToggleParticles | src/components/providers/EasterEggsProvider.tsx:23 | Only `showParticles` is negated. |
| EasterEggs.Provider.ToggleGrid | src/components/providers/EasterEggsProvider.tsx:24 | Only `showGrid` is negated. |
| EasterEggs.Provider.ToggleGlow | src/components/providers/EasterEggsProvider.tsx:25 | Only `turboGlow` is negated. |
| EasterEggs.Provider.ApplyShortcut | src/components/providers/EasterEggsProvider.tsx:34-37 | The four shortcut tests apply `Shortcut` to the toggles and leave the window alone. |
| EasterEggs.Provider.Remember | src/components/providers/EasterEggsProvider.tsx:39-40 | Pushing the key and shifting past ten leaves the toggles alone. The window stays equal to the last ten keys pressed. |
| EasterEggs.Provider.Handler | src/components/providers/EasterEggsProvider.tsx:32-44 | The handler moves the state to `OnKey` of the old state. The pushed and shifted buffer stays equal to the last ten keys pressed. |
| App.Initial | src/App.tsx:26-27 | The shell starts on `home` with the menu closed and no article requested. |
| App.SwitchTabLands | src/App.tsx:29-34 | `switchTab` sets the tab, closes the menu, requests no article, and is idempotent. |
| App.StringDetailSwitches | src/App.tsx:58-60 | A string detail switches to that tab. |
| App.PayloadSwitchesAndRequests | src/App.tsx:61-69 | An object detail with a truthy tab switches to it. A truthy slug is also queued as an `openArticle` request; otherwise nothing is queued. |
| App.OtherDetailIgnored | src/App.tsx:57-71 | A missing detail, or an object without a truthy tab, changes nothing. |
| App.RequestsOnlyGrow | src/App.tsx:56-71 | An event only ever appends to the article requests, by at most one. |
| App.MenuHandlers | src/App.tsx:42-46 | The menu button negates the menu flag (twice restores it). A mouse-down outside menu and button closes the menu; inside, nothing changes; the tab never changes. (Also the button at lines 125-131.) |
| App.SectionsByTab | src/App.tsx:166-193 | Each tab shows its listed sections in order; an unknown tab shows none. |
| App.BlogShownOnlyOnBlogTab | src/App.tsx:173-185 | The blog section appears exactly on the `blog` tab. The featured post appears exactly on `home`. |
| App.LayersFollowToggles | src/App.tsx:14-22 | The matrix rain, particles and grid are shown exactly when their toggles are on. (Also the grid at line 85.) |
| App.MatrixHotkeyFlipsLayer | src/App.tsx:18 | The `m` key hides or shows the matrix rain and leaves the other layers as they were. (Also the grid at line 85.) |
| App.Shell.constructor | src/App.tsx:26-27 | The shell's fields start in the initial state. |
| App.Shell.SwitchTo | src/App.tsx:29-34 | The fields move to `SwitchTab` of the old state. |
| App.Shell.HandleTabSwitch | src/App.tsx:56-71 | The fields move to `OnSwitchTabEvent` of the old state. |
| App.Shell.MenuButton | src/App.tsx:125-131 | The fields move to `ToggleMenu` of the old state. |
| App.Shell.HandleClickOutside | src/App.tsx:38-48 | The fields move to `MouseDown` of the old state. |
| BlogData.NumBound | src/data/blogPosts.ts:23 | The digits of a date string read as a number stay below 10 to the number of digits. |
| BlogData.SameShapeDigits | src/data/blogPosts.ts:23 | Two date strings of the same shape have the same number of digits. |
| BlogData.ShapeOrder | src/data/blogPosts.ts:23 | For same-shaped strings, string order is numeric order of the digits. |
| BlogData.NumAppend | src/data/blogPosts.ts:23 | Reading digits is positional: appending shifts the prefix by the suffix's digit count. |
| BlogData.NumFront | src/data/blogPosts.ts:23 | Reading the digits from the first character on agrees with reading them from the last: the first digit is worth 10 to the number of digits after it. |
| BlogData.AllDigitsCount | src/data/blogPosts.ts:23 | A string of digits has as many digits as characters. |
| BlogData.IsoParts | src/data/blogPosts.ts:23 | An ISO date has a four-digit year and a two-digit month and day between non-digit separators. |
| BlogData.DateKeyParts | src/data/blogPosts.ts:23 | The date key is year·10000 + month·100 + day. |
| BlogData.StringOrderIsChronological | src/data/blogPosts.ts:23 | For ISO dates, string order is key order, and both are the lexicographic order of year, month and day. (Also the dates at lines 218 and 426.) |
| BlogData.IdsAndSlugsDistinct | src/data/blogPosts.ts:16-18 | The shipped posts have pairwise distinct ids and slugs. (Also lines 211-213 and 419-421.) |
| BlogData.CategoriesCoverPosts | src/data/blogPosts.ts:687 | The category list starts with `All`. Every post's category is one of the others and is never `All`. (Also the post categories at lines 20, 215 and 423.) |
| BlogData.EveryPostHasContent | src/data/blogPosts.ts:25 | Every shipped post carries content. (Also lines 220 and 428.) |
| BlogData.ShippedDatesIso | src/data/blogPosts.ts:23 | Every shipped date is an ISO date. (Also the dates at lines 218 and 426.) |
| BlogData.TwoDigits | src/data/blogPosts.ts:23 | Two digits read as 10·first + second. |
| BlogData.FourDigits | src/data/blogPosts.ts:23 | Four digits read as 100·(first pair) + second pair. |
| BlogData.DateKeyDigits | src/data/blogPosts.ts:23 | An ISO date's key, digit by digit. |
| BlogData.FirstDateKey | src/data/blogPosts.ts:23 | The first post's date, `2024-12-19`, has key 20241219. |
| BlogData.SecondDateKey | src/data/blogPosts.ts:218 | The second post's date, `2024-12-15`, has key 20241215. |
| BlogData.ThirdDateKey | src/data/blogPosts.ts:426 | The third post's date, `2024-12-10`, has key 20241210. |
| BlogData.ShippedNewestFirst | src/data/blogPosts.ts:23 | Each shipped post is strictly older than the one before it. (Also the dates at lines 218 and 426.) |
| NewestFirst.InsertMultiset | src/components/sections/Blog.tsx:97 | Inserting a post adds exactly that post. |
| NewestFirst.InsertBounded | src/components/sections/Blog.tsx:97 | Inserting keeps every key under a common bound. |
| NewestFirst.InsertSorted | src/components/sections/Blog.tsx:97 | Inserting into a newest-first list keeps it newest-first. |
| NewestFirst.InsertKeeps | src/components/sections/Blog.tsx:97 | Insertion keeps the order and adds exactly the new post. |
| NewestFirst.SortNewestSpec | src/components/sections/Blog.tsx:97 | The sort result is newest-first and a permutation of its input. |
| NewestFirst.InsertOldest | src/components/sections/Blog.tsx:97 | A post no newer than all others goes to the end. |
| NewestFirst.SortSortedIsIdentity | src/components/sections/Blog.tsx:97 | Sorting an already newest-first list changes nothing, so posts with equal dates keep their order. |
| NewestFirst.SortIdempotent | src/components/sections/Blog.tsx:97 | Sorting twice is sorting once. |
| NewestFirst.InsertAt | src/components/sections/Blog.tsx:97 | A post lands after every post at least as new and before every strictly older one. |
| NewestFirst.SamplePostsSorted | src/data/blogPosts.ts:23 | The shipped array is already newest-first, so the sort leaves it as it is. (Also the dates at lines 218 and 426.) |
| NewestFirst.AdjacentSorted | src/components/sections/Blog.tsx:97 | Neighbours in order imply the whole list is in order. |
| NewestFirst.InsertStep | src/components/sections/Blog.tsx:97 | One insertion pass on the array turns the sorted prefix plus the next element into their insertion, and leaves the rest untouched. |
| NewestFirst.FindGap | src/components/sections/Blog.tsx:97 | The gap for the inserted post: every post between it and the post's old place is strictly older than the post, and the one just before it, if any, is at least as new. |
| NewestFirst.ShiftRight | src/components/sections/Blog.tsx:97 | The posts between the gap and the old place each move one place right; every other slot is untouched. |
| NewestFirst.ThreeDescending | src/data/blogPosts.ts:23 | Three posts with strictly falling dates are newest-first, and the sort leaves them in place. |
| NewestFirst.StepResult | src/components/sections/Blog.tsx:97 | The array after the shifting pass is the functional insertion. |
| NewestFirst.SortInPlace | src/components/sections/Blog.tsx:97 | The in-place sort leaves the array equal to `SortNewest` of its old contents. |
| Blog.FilterSpec | src/components/sections/Blog.tsx:85-93 | `filter` keeps exactly the elements passing the test, each as often as it occurs in the input, and drops the rest. |
| Blog.FilterSplit | src/components/sections/Blog.tsx:85-93 | Filtering a concatenation filters each part and concatenates, so kept elements stay in their input order. |
| Blog.CategoryStageSpec | src/components/sections/Blog.tsx:83-85 | `All` keeps every post. Any other category keeps exactly the posts of that category. |
| Blog.SearchStageSpec | src/components/sections/Blog.tsx:88-94 | An empty term keeps everything. Otherwise the posts kept are exactly those whose lower-cased title, summary or category contains the lower-cased term. |
| Blog.ListingSpec | src/components/sections/Blog.tsx:82-99 | The listing is newest-first, has `min(visible, matches)` posts, and is a prefix of the sorted matches. Every listed post passes both filters. |
| Blog.ShippedListing | src/components/sections/Blog.tsx:77-99 | With the initial settings, the listing is the three shipped posts in their shipped order. |
| Blog.LoadMoreProgress | src/components/sections/Blog.tsx:101-107 | When load-more is offered, it adds between one and three posts and never goes past the post count. Reaching the count withdraws the button. (Also the button condition at line 199.) |
| Blog.LoadMoreNeverOfferedWhenShipped | src/components/sections/Blog.tsx:199 | With three shipped posts and six initially visible, the button never appears. (Also the initial count at line 77.) |
| Blog.BlogView.constructor | src/components/sections/Blog.tsx:75-80 | The view starts with no posts, not loading, six visible, `All`, no selected post and an empty search. |
| Blog.BlogView.Refresh | src/components/sections/Blog.tsx:82-99 | The effect shows the listing. It sorts the shared array in place exactly when no filter applies (otherwise it sorts a fresh copy). |
| Blog.BlogView.StartLoadMore | src/components/sections/Blog.tsx:101-102 | Load-more raises `loading` and nothing else. |
| Blog.BlogView.FinishLoadMore | src/components/sections/Blog.tsx:103-106 | After the delay, three more posts are visible (capped at the count) and loading ends. |
| Blog.BlogView.ChooseCategory | src/components/sections/Blog.tsx:170-173 | A category button selects the category and resets visibility to six. |
| Blog.BlogView.SetSearch | src/components/sections/Blog.tsx:256-259 | The search box and the topic buttons set the search term only. (Also lines 152 and 238.) |
| Blog.BlogView.OpenCard | src/components/sections/Blog.tsx:110-117 | A card selects its slug, and a non-empty slug switches the view to that article. (Also the card click at line 193.) |
| Blog.BlogView.Back | src/components/sections/Blog.tsx:114 | Back clears the selection and shows the listing with the load-more state. |
| FeaturedBlog.FeaturedIsNewest | src/components/sections/FeaturedBlog.tsx:10 | The featured post is one of the posts and is at least as new as every post. |
| FeaturedBlog.ShippedFeatured | src/components/sections/FeaturedBlog.tsx:10 | With the shipped posts, the CDN article is featured. |
| FeaturedBlog.SelectFeatured | src/components/sections/FeaturedBlog.tsx:10 | The shared array is sorted newest-first in place (a sorted permutation), and its first element is returned. |
| FeaturedBlog.ReadFullArticleRequestsFeatured | src/components/sections/FeaturedBlog.tsx:12-15 | "Read full article" switches to the blog tab, closes the menu and requests the featured post's slug. An empty slug would request nothing. |
| FeaturedBlog.ViewAllRequestsNothing | src/components/sections/FeaturedBlog.tsx:17-20 | "View all" switches to the blog tab and requests no article. |
| BlogPost.OnlyCdnResolves | src/components/sections/BlogPost.tsx:207 | As written, among the table's own keys the article lookup succeeds exactly for the CDN slug. (Also the table at line 12.) |
| BlogPost.LaterCardsNotFound | src/components/sections/BlogPost.tsx:359-371 | As written, the second and third posts have content, yet opening them finds nothing. (Also the lookup at line 207.) |
| BlogPost.FindBySlug | src/components/sections/BlogPost.tsx:207 | A found post is in the list and has the slug. Not found means no post has it. |
| BlogPost.FindOwnSlug | src/components/sections/BlogPost.tsx:207 | With distinct slugs, looking up a post's own slug finds that post. |
| BlogPost.EveryCardOpensItsPost | src/components/sections/BlogPost.tsx:207 | With lookup over the post list, every shipped card opens its own post. |
| BlogPost.FenceAtIsOccurrence | src/components/sections/BlogPost.tsx:214 | A fence at `i` is exactly an occurrence of three backticks at `i`. |
| BlogPost.FindFence | src/components/sections/BlogPost.tsx:214 | The search returns the first fence at or after the start, or none when there is no fence. |
| BlogPost.Cut | src/components/sections/BlogPost.tsx:214 | A cut gives fences at `p` and `q` with `p + 3 <= q`, no fence before `p` and none in `[p + 3, q)`: the first opener and the nearest closer after it. |
| BlogPost.SegmentsConcat | src/components/sections/BlogPost.tsx:214 | Joining the segments with the empty separator gives back the content exactly. |
| BlogPost.CutSpec | src/components/sections/BlogPost.tsx:214 | No cut means no fence pair. A cut has no fence at any index before the opener and none inside the block (the non-greedy match). |
| BlogPost.SegmentsOdd | src/components/sections/BlogPost.tsx:214 | The split always yields an odd number of segments. |
| BlogPost.SegmentsShape | src/components/sections/BlogPost.tsx:214 | Odd segments are fenced, with no fence inside. Even segments hold no fence pair, and those before a fenced one hold no fence at all. |
| BlogPost.WordRun | src/components/sections/BlogPost.tsx:218 | The run covers the maximal stretch of word characters from the start. |
| BlogPost.MatchNeedsPair | src/components/sections/BlogPost.tsx:218 | A code match needs a fence pair in the section. |
| BlogPost.NoPairNoMatch | src/components/sections/BlogPost.tsx:218 | A section without a fence pair never matches, so text segments always take the text branch. (Also line 297.) |
| BlogPost.FencedMatch | src/components/sections/BlogPost.tsx:218-222 | A fenced segment with a newline after the optional word matches with that word as the language (`python` when absent) and the body as the code. |
| BlogPost.WordRunIs | src/components/sections/BlogPost.tsx:218 | A run of word characters ended by a non-word character is what the run finds. |
| BlogPost.FindFirstIs | src/components/sections/BlogPost.tsx:214-218 | The first fence after the start is what the search returns. |
| BlogPost.NumberLines | src/components/sections/BlogPost.tsx:281-286 | Code lines are numbered from 1 in order, and an empty line shows a space. |
| BlogPost.NotBlank | src/components/sections/BlogPost.tsx:301 | A line starting with a non-space character is not blank. |
| BlogPost.HeadingOne | src/components/sections/BlogPost.tsx:304-306 | A `# ` line is a level-1 heading whose text starts at index 2. |
| BlogPost.HeadingTwo | src/components/sections/BlogPost.tsx:307-309 | A `## ` line is a level-2 heading (never level 1) whose text starts at index 3. |
| BlogPost.HeadingThree | src/components/sections/BlogPost.tsx:310-312 | A `### ` line is a level-3 heading whose text starts at index 4. |
| BlogPost.ClassifyPrecedence | src/components/sections/BlogPost.tsx:301-329 | Blank lines break. Emphasis and inline code are chosen, in that order, only for non-heading lines. Any other line is a paragraph of itself. |
| BlogPost.ClassifyAll | src/components/sections/BlogPost.tsx:300 | Every line of a text segment is classified, in order. |
| BlogPost.RenderAll | src/components/sections/BlogPost.tsx:216 | Every segment is rendered, in order. |
| BlogPost.RenderShape | src/components/sections/BlogPost.tsx:210-211 | Empty content renders nothing. A blank text segment renders nothing, and any other text segment renders the classification of its lines split on newlines. (Also lines 297 and 335.) |
| BlogPost.CodeBlockLines | src/components/sections/BlogPost.tsx:220-286 | A fenced block renders as code in its language. Its lines are the trimmed body split on newlines, numbered from 1. |
| Contact.EmailPatternIsShape | src/components/sections/Contact.tsx:35-36 | The pattern accepts exactly the strings with no white space and exactly one `@` with text before it, followed by a `.` that has text on both sides. |
| Contact.PaddedEmailRejected | src/components/sections/Contact.tsx:36 | An address that starts or ends with white space never matches. |
| Contact.Utf8 | src/components/sections/Contact.tsx:44-47 | Each character encodes to one to four bytes. |
| Contact.HexDigit | src/components/sections/Contact.tsx:44-47 | Percent-escapes use upper-case hex digits. |
| Contact.PercentBytesShape | src/components/sections/Contact.tsx:44-47 | Each byte becomes three characters: `%` and two upper-case hex digits. |
| Contact.EncodeSafe | src/components/sections/Contact.tsx:44-48 | Encoded text holds only unreserved characters and `%`, so no `&`, `=`, `#` or white space. |
| Contact.EncodeUnreserved | src/components/sections/Contact.tsx:44-47 | Text made only of unreserved characters encodes to itself. |
| Contact.MissingFieldsFirst | src/components/sections/Contact.tsx:29-32 | If a field is blank after trimming, or the address is all white space, the outcome is the missing-fields alert and the form is unchanged. |
| Contact.InvalidEmailKeepsForm | src/components/sections/Contact.tsx:35-38 | With all fields filled but a malformed address, the outcome is the invalid-address alert, nothing opens and the form stays. |
| Contact.UntrimmedEmailRejected | src/components/sections/Contact.tsx:29-36 | A padded address passes the required check but is reported invalid. |
| Contact.ValidFormOpensAndResets | src/components/sections/Contact.tsx:44-63 | A valid form navigates to the mailto link, empties every field and shows the success alert. |
| Contact.LinkHasTwoParameters | src/components/sections/Contact.tsx:44-48 | The link's query splits on `&` into exactly the encoded subject parameter and the encoded body parameter. |
| Contact.ContactForm.constructor | src/components/sections/Contact.tsx:17-23 | All four fields start empty and the form is not submitting. |
| Contact.ContactForm.SetName | src/components/sections/Contact.tsx:162 | Only the name field changes. |
| Contact.ContactForm.SetEmail | src/components/sections/Contact.tsx:176 | Only the email field changes. |
| Contact.ContactForm.SetSubject | src/components/sections/Contact.tsx:191 | Only the subject field changes. |
| Contact.ContactForm.SetMessage | src/components/sections/Contact.tsx:204 | Only the message field changes. |
| Contact.ContactForm.HandleSubmit | src/components/sections/Contact.tsx:25-70 | The fields and the outcome are those of `Submit`. After an accepted submit the flag is down, because `finally` runs whether or not navigation throws. |
| ParticleField.Create | src/components/effects/ParticleField.tsx:16-22 | A new particle sits at the given point with life 0, a span in `[80, 160)` and each velocity component in `[-0.7, 0.7)`. |
| ParticleField.SurvivorsSplit | src/components/effects/ParticleField.tsx:31-33 | The filter works piece by piece, so survivors keep their relative order. |
| ParticleField.SurvivorsOne | src/components/effects/ParticleField.tsx:31-33 | A particle survives, moved by its velocity and one step older, exactly when its new life is below its span. |
| ParticleField.SurvivorsMembers | src/components/effects/ParticleField.tsx:31-33 | No more survivors than particles. Each survivor is some particle moved and aged by one, and each particle still alive after aging survives. |
| ParticleField.Opacity | src/components/effects/ParticleField.tsx:41 | A live particle's alpha factor `1 - life/maxLife` lies in `(0, 1]`. |
| ParticleField.OpacityBounds | src/components/effects/ParticleField.tsx:41 | The life fraction of a live particle lies in `[0, 1)`. |
| ParticleField.ThrottledTickIsIdle | src/components/effects/ParticleField.tsx:24-27 | Under 1/40 s since the last update, the particles and `last` are unchanged. |
| ParticleField.TickBounds | src/components/effects/ParticleField.tsx:28-36 | An update keeps the survivors as a prefix and adds at most one particle, exactly when fewer than 30 survive and the draw is below 0.2. A population of at most 30 stays at most 30. |
| ParticleField.SurvivorsLive | src/components/effects/ParticleField.tsx:31-33 | Survivors of live particles are live. |
| ParticleField.TickKeepsLive | src/components/effects/ParticleField.tsx:16-36 | Every particle stays live (life in `[0, maxLife)`) across updates. |
| ParticleField.Field.constructor | src/components/effects/ParticleField.tsx:7-24 | No particles, `last` is 0, and the canvas takes the window size. |
| ParticleField.Field.Resize | src/components/effects/ParticleField.tsx:13 | Only the canvas size changes. |
| ParticleField.Field.Update | src/components/effects/ParticleField.tsx:26-36 | The filtering loop and the spawn leave the state equal to `Tick` of the old state, keeping every particle live and at most 30 of them. |
| MatrixBackground.Columns | src/components/effects/MatrixBackground.tsx:17-18 | The column count is the floor of width / 14. |
| MatrixBackground.GlyphIndex | src/components/effects/MatrixBackground.tsx:16-41 | Glyph indices lie in `[0, 45)`, inside the character set. |
| MatrixBackground.AdvanceAll | src/components/effects/MatrixBackground.tsx:40-46 | Each column advances by the per-column rule, and the column count is kept. |
| MatrixBackground.AdvanceCases | src/components/effects/MatrixBackground.tsx:44-45 | A drop on the canvas moves down one. One past the bottom restarts at 1 when the draw exceeds 0.975, and otherwise moves down one. |
| MatrixBackground.AdvanceKeepsPositive | src/components/effects/MatrixBackground.tsx:44-45 | Every drop stays at least 1. |
| MatrixBackground.Rain.constructor | src/components/effects/MatrixBackground.tsx:13-23 | There are floor(width/14) drops, each starting at 1, and `last` is 0. |
| MatrixBackground.Rain.Resize | src/components/effects/MatrixBackground.tsx:52-55 | Resizing changes the canvas size but not the drops array or its contents. |
| MatrixBackground.Rain.Draw | src/components/effects/MatrixBackground.tsx:26-46 | Under 80 ms since the last frame nothing changes. Otherwise the loop advances every column in place, sets `last`, returns in-range glyph indices and keeps every drop at least 1. |
| AppScript.EscapeConcat | app.js:1 | Escaping works character by character, so it distributes over concatenation. |
| AppScript.EscapeSafe | app.js:1 | Escaped text contains no `<`, `>`, `"` or `'`. |
| AppScript.EscapeClean | app.js:1 | Text without the five special characters is unchanged. |
| AppScript.EscapeTwice | app.js:1 | Escaping is not idempotent: `&` escaped twice is `&amp;amp;`. |
| AppScript.UnescapeEscape | app.js:1 | Decoding the five entities recovers the original text, so escaping loses nothing. |
| AppScript.UnescapeHead | app.js:1 | Decoding an escaped first character gives that character back. |
| AppScript.ToInt32 | app.js:48 | The shift operand is the value modulo 2^32, read as a signed 32-bit number, so values below 2^31 pass through unchanged. |
| AppScript.Channels | app.js:48 | The red, green and blue channels each lie in `[0, 255]`. |
| AppScript.ChannelsRecombine | app.js:48 | For `0 <= v < 2^24`, r·65536 + g·256 + b = v. |
| AppScript.ChannelsOfPacked | app.js:48 | Three bytes packed into 24 bits come back out as the same three channels. |
| AppScript.HexDigitValue | app.js:48 | A hex digit's value is below 16. |
| AppScript.HexRun | app.js:48 | `parseInt` reads the leading run of hex digits: the run is a prefix of hex digits, and it stops at the end or at a non-hex character. |
| AppScript.DropHash | app.js:48 | `replace('#', '')` leaves a string without `#` unchanged. |
| AppScript.DropHashFirst | app.js:48 | `replace('#', '')` removes exactly the first `#` and nothing else, and leaves a string without `#` unchanged. |
| AppScript.ParseLeadingRun | app.js:48 | An optional sign and `0x` prefix, a run of hex digits and a non-hex rest parse to the signed value of the run, so `12zz` reads as 0x12. |
| AppScript.HexNumberAppend | app.js:48 | Hex digits are positional: appending shifts the prefix by 16 to the suffix length. |
| AppScript.PairBound | app.js:48 | Two hex digits read as 16·first + second, below 256. |
| AppScript.SixDigitColour | app.js:48 | For `#rrggbb`, the channels are the three hex pairs. |
| AppScript.ParseDigits | app.js:48 | A string of hex digits parses to its value. |
| AppScript.SixDigitValue | app.js:48 | Six hex digits are the three pairs in base 256. |
| AppScript.HexRunAll | app.js:48 | A string made only of hex digits is read whole. |
| AppScript.TypedText.constructor | app.js:52-56 | The text is the `data-text` attribute or else the content. Empty text or reduced motion shows the whole text at once; otherwise the text starts empty with the interval running. |
| AppScript.TypedText.Tick | app.js:57 | One tick shows one more character, so after k ticks the first k characters are shown. The interval stops at the full length. |
| AppScript.TypedText.Finish | app.js:57 | Letting the interval run out shows the whole text. |
| AppScript.TranscriptShape | app.js:131-135 | The transcript echoes the command after `> ` and ends with the agent's answer. |
| AppScript.AgentTerminal.constructor | app.js:124-126 | Output and input start empty. |
| AppScript.AgentTerminal.Print | app.js:137 | `print` appends to the output. |
| AppScript.AgentTerminal.TypeOut | app.js:139 | `type` appends its text character by character. |
| AppScript.AgentTerminal.Submit | app.js:128-136 | A blank command changes nothing. Otherwise the output grows by the echoed command, the thinking line and the answer, and the input is cleared. |
| AppScript.MetaLineDate | app.js:107 | The date can be read back from the meta line. It is followed by ` • ` only when there are tags. |
| AppScript.MetaLineParts | app.js:107 | With tags, splitting the line at the bullet gives the date and a space, then a space and the tags joined with ` · `. Without tags the line is the date. |

## Left out

- Rendering: JSX markup, styles, icons, animation variants and canvas drawing. Drawing is reduced to the values it uses: opacity and glyph index.
- Randomness and time: `Math.random` values, frame times and canvas sizes are parameters. Timers are discrete steps.
- Clean-up: the effects cancel only their first animation frame on unmount. Unmounting is not modelled.
- Host functions: `crypto.randomUUID` entry ids, `alert` (returned as a value), `window.location` (navigation failure is a parameter), scrolling and DOM class toggles.
- Networking: `fetch` in `loadPosts` (only the meta line of a card is modelled) and the admin page.
- `toLowerCase` is modelled on ASCII letters only. `trim` and `\s` use the full ECMAScript white-space set.
- Strings are sequences of code points. JavaScript indexes UTF-16 units, so the typed-text effect and `slice(0, -1)` differ on characters outside the Basic Multilingual Plane.
- Terminal.Resolve: renders a command as its name rather than its JSX output. Names the object inherits are treated as in the Findings table: `__proto__` stops the timer step, and `constructor` yields a plain object that React refuses to render.
- EasterEggs.KonamiMatchIffEqual: holds only for key names without commas. The comma-joined comparison could match other windows when key names contain commas.
- App.OnSwitchTabEvent: a detail is a string, an object with optional string `tab` and `slug`, or neither. Non-string truthy values are not modelled.
- Blog and FeaturedBlog compare dates through `new Date(...).getTime()`, modelled as the numeric key of an ISO date. Non-ISO dates, which would sort by `NaN`, are out of scope.
- BlogData: post content is recorded only as present or absent (`hasContent`). Its text is not part of this model; the renderer is proved for arbitrary content.
- FeaturedBlog.SelectFeatured: requires a non-empty array. With no posts the source reads `undefined` and fails while rendering.
- BlogPost: bold, emphasis and inline-code lines are classified, but the regex rewriting into HTML and its injection are not modelled. Fullscreen code-block toggling and clipboard writes are left out.
- BlogPost.Lookup: the article table is modelled by its key and date only. Article bodies are not included.
- BlogPost.Lookup: own keys only. `blogPosts[postId]` also finds names the object literal inherits, such as `toString`, and would then render the article view with undefined fields; ids reach the component only from card slugs (Blog.tsx:193), so those names do not arise.
- FeaturedBlog.ReadFullArticleRequestsFeatured: records the `openArticle` request only. No component listens for that event, so the button leaves the blog listing showing rather than the featured article.
- Contact.HandleSubmit: `isSubmitting` rises and falls inside one handler, so React never shows it raised. The model records the end value only.
- Contact.Encode: UTF-8 percent-encoding of code points. Lone surrogates cannot occur in the model, so the `URIError` they would raise is not modelled.
- AppScript.ParseHex: for digit runs beyond 2^53, `parseInt` loses precision in floating point, which the exact integer model does not.
- AppScript.HexChannels: the alpha value and the printed `rgba(...)` string are not modelled.
- AppScript.AgentTerminal.Submit: runs as one step. A second submission during the awaited typing and sleep would interleave its output, which the model does not capture.
- AppScript.TypedText.constructor: an absent `data-text` attribute is the empty string.
- MatrixBackground.Rain.Draw: takes one reset draw per column. The source draws it only for drops past the bottom, so the sequence of random values consumed differs, but each column's outcome does not.
- ParticleField.Tick: takes all six draws on every update. The source consumes the five creation draws only when it spawns, and skips the spawn-test draw too when 30 or more particles survive, since the `&&` short-circuits.
- Numbers: JavaScript numbers are modelled as exact reals. ParticleField.Create's `maxLife < 160` holds over the reals only: in doubles, `Math.random() * 80 + 80` rounds to exactly 160 for the largest draw below 1.
- Terminal.Printable: counts code points, while `e.key.length === 1` counts UTF-16 units, so a key outside the Basic Multilingual Plane is printable in the model but not in the source.
- BlogData.IsoDate: checks the `YYYY-MM-DD` shape only, so `2024-13-45` is accepted and keyed 20241345, while `new Date` gives `NaN` for it.
- The wave canvas, parallax, card tilt and fade-in effects of `app.js`, and the static sections (hero, experience, projects, theme toggle), hold no behaviour beyond drawing.

## Findings

| source | as written | input that shows it | evidently intended | confidence | as-written member | corrected member |
|---|---|---|---|---|---|---|
| src/components/interactive/Terminal.tsx:87-90 | `commands[cmd]` reads a plain object, so `__proto__` finds `Object.prototype`. Calling it throws inside `run` before `setBusy(false)`. | type `__proto__`, press Enter | an unknown-command message, with the terminal free again | high, not executed | Terminal.ProtoLocksTerminal | Terminal.ProtoIsUnknownCommand |
| src/components/interactive/Terminal.tsx:87-131 | `commands[cmd]` also finds `constructor`, which is `Object`. Calling it returns `{}`, stored as an output and rendered as a React child at line 131, which throws with no error boundary around it. | type `constructor`, press Enter | an unknown-command message | high, not executed | Terminal.ConstructorBreaksRender | Terminal.OnTimerRenders |
| src/components/sections/BlogPost.tsx:11-207 | the article table holds only the CDN post, but the blog lists three posts with content | open the second or third card | every listed post opens its own article | medium, not executed | BlogPost.LaterCardsNotFound | BlogPost.EveryCardOpensItsPost |
