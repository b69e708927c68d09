# Web3sha in Dafny

A model of the client-side core of Web3sha. Web3sha is a single-page site for
a Web3 strategist. It has a learning hub behind a lead-capture gate, a
catalogue of courses with a free-course player, membership tiers, a booking
flow for strategy sessions, an admin area with a CMS and a lead list, and an
assistant chat.

The model covers these parts:

- **Chat directives.** A model reply can carry directives of the form
  `[ACTION: label | view]`. The model turns them into navigation buttons and
  deletes them from the text. This is the regular expression
  `/\[ACTION:\s*(.*?)\s*\|\s*(.*?)\]/g`, modelled step by step (greedy white
  space, lazy captures that do not cross a line terminator). The model proves:
  - parsing inverts rendering;
  - a reply without the opener is only trimmed;
  - the survivors of the deletion keep their order;
  - a directive spliced into another is reassembled.
- **Chat transcript.** The message history only grows, the greeting is first,
  and only offered buttons navigate.
- **Shell and navigation.** Start-up loading, the session unlock, course
  selection and exit, the views and what each shows, and the terms dialog.
  The gate form, the course detail page, the next-steps cards and the hero
  roadmap are modelled too.
- **List operations.** The hub, content and course filters. The category list
  (a JavaScript `Set` in insertion order). The article chart. CMS delete, edit
  and add for content and resources. Goal toggling in the membership advisor.
  The lead log in storage.
- **Serialisers.** The lead CSV export, with a reader proving the round trip.
  The article paragraphing. The brief clean-up of the booking form, built on a
  literal `ReplaceAll`.
- **Step machines.** Booking. The free-course certificate: claim, three timers
  and a made-up transaction hash. The NFT mint demo. DAO voting. For each, the
  model proves the invariants every reachable state satisfies and the
  end-to-end timelines.
- **Seed data.** The seed data of `constants.ts`: header links, hub items,
  resources, tiers and courses. The model proves the facts the rest relies on:
  - ids are distinct;
  - every free course's recommendation resolves to a paid course;
  - the header links match the views the chat may offer.

Everything is a pure function over immutable datatypes. Everything outside
the program becomes a parameter or an event:

- the language model (`AiService.Outcome`: answered with a text, or failed);
- whether a client is configured;
- the storage (a map that may fail to read or write);
- timers (`Wait` and `TimerFired` events);
- `Date.now`, `Math.random` and file pickers.

Shared toolkit modules:

- `Wrappers`: `Option`.
- `Seqs`: `Array.prototype.filter`, `find`, `map`, `[...new Set(s)]` and
  subsequences.
- `Strings`: `trim`, literal global `replace`, `toLowerCase`, `join`, `split`
  and `includes`.

## Model

| member | source | states |
|---|---|---|
| Types.ViewFromName | types.ts:1 | The view a name denotes, if any; no other view has that name. |
| Types.ViewNameRoundTrip | types.ts:1 | Every view's name reads back as that view, so the eight view names are distinct. |
| Seqs.Filter | components/CoursesSection.tsx:44 | `Array.prototype.filter`: every survivor passes the test and comes from the input; every passing element survives. |
| Seqs.FilterIsSubseq | components/CoursesSection.tsx:44 | Filtering keeps the survivors in their original order. |
| Seqs.FilterSplit | components/CoursesSection.tsx:42-45 | A test and its complement split a sequence: the two filters together hold each element exactly as often as the input. |
| Seqs.Find | components/NextSteps.tsx:12 | `Array.prototype.find`: the first element passing the test, or none when no element does. |
| Seqs.Dedup | components/LearningHubSection.tsx:205 | `[...new Set(s)]`: duplicate-free, the same elements as `s`, and `s` itself when it has no duplicates. |
| Seqs.DedupIsSubseq | components/LearningHubSection.tsx:205 | Deduplication keeps the first occurrences in their order. |
| Strings.Trim | services/geminiService.ts:94-95 | `String.prototype.trim`: no white space at either end of the result. |
| Strings.TrimShape | services/geminiService.ts:101 | The trimmed text sits in the input right after its leading white space, with only white space after it; it is empty exactly when the input is all white space. |
| Strings.TrimIdempotent | services/geminiService.ts:101 | Trimming twice is trimming once. |
| Strings.TrimPadded | services/geminiService.ts:94 | Trimming a padded text with no white space at its ends gives back that text. |
| Strings.ReplaceAll | components/BookingSection.tsx:153 | Literal global replacement: a text without the pattern is returned unchanged. Its general leftmost, non-overlapping behaviour is characterised by `Strings.ReplaceSeparator`, for a separator whose first character occurs in no part. |
| Strings.ReplaceAllAbsent | components/ContentDetail.tsx:11-22 | Replacing never introduces a character that neither the input nor the replacement holds. |
| Strings.ReplaceSeparator | components/ContentDetail.tsx:16 | Replacing the separator of a join, when no part contains its first character, joins the same parts with the replacement. |
| Strings.DoubleThenCollapse | components/LeadsViewer.tsx:17-19 | Doubling a character and then collapsing each doubled pair gives back the original. |
| Strings.ToLower | components/LearningHubSection.tsx:213 | Lower-casing changes exactly the upper-case ASCII letters. |
| Strings.ToLowerIdempotent | components/LearningHubSection.tsx:213-216 | Lower-casing twice is lower-casing once. |
| Strings.Split | components/LeadsViewer.tsx:21-24 | `split` by one character: at least one piece, no piece holding the separator. |
| Strings.SplitJoin | components/LeadsViewer.tsx:21-24 | `split` undoes `join` when no part holds the separator. |
| Strings.ContainsIffOccurs | components/Hero.tsx:27-30 | `includes` holds exactly when the needle occurs at some index. |
| Directives.SkipSpace | services/geminiService.ts:89 | Greedy `\s*`: the first index at or after the start that is not white space, with only white space before it. |
| Directives.CloseAt | services/geminiService.ts:89 | Lazy `(.*?)\]`: the first `]`, and only if no line terminator comes before it. |
| Directives.LazyLabel | services/geminiService.ts:89 | The lazy label capture: a match keeps the label's start, ends at or after the position searched from, and lies within the text. |
| Directives.MatchHere | services/geminiService.ts:89 | The expression attempted at one position: a match is found only where the text starts with the `[ACTION:` opener, and it lies within the text. |
| Directives.MatchHereParses | services/geminiService.ts:89 | Every match found is a parse of a prefix of the text by the directive grammar. |
| Directives.Scan | services/geminiService.ts:93-101 | The `exec` loop and `replace` walk the same matches left to right: each deleted match is at least ten characters long, and without a match the text is kept whole. |
| Directives.ScanKeepsOrder | services/geminiService.ts:101 | The deleted text is the reply with some characters removed, in order. |
| Directives.ScanWithoutOpen | services/geminiService.ts:89-101 | A text without the opener has no match: nothing is captured and nothing deleted. |
| Directives.ChatViewNamed | services/geminiService.ts:96 | The permitted views are exactly those named in `['home', 'hub', 'services', 'book', 'courses']`. |
| Directives.ChatTarget | services/geminiService.ts:95-96 | A trimmed view capture is accepted exactly when it is one of the five names, and then it denotes a permitted view. |
| Directives.ActionOf | services/geminiService.ts:94-97 | One capture gives a button with the trimmed label and view exactly when the trimmed view is permitted. |
| Directives.ActionsOf | services/geminiService.ts:93-99 | At most one button per capture, and every button leads to a permitted view. |
| Directives.ParseReply | services/geminiService.ts:86-104 | The parsed text is trimmed and no longer than the reply; every button leads to a permitted view; every button costs at least ten characters of the reply. |
| Directives.ParsePlainReply | services/geminiService.ts:89-104 | A reply without the opener is only trimmed and has no buttons. |
| Directives.LaidOutMatches | services/geminiService.ts:89 | A text laid out as a directive is matched in full, up to its first `]`. |
| Directives.LaidOutCaptures | services/geminiService.ts:89 | The captures of a directive: the label trimmed, and the view without its leading white space. |
| Directives.TrimViewCapture | services/geminiService.ts:95 | Trimming the view capture is trimming the whole view part. |
| Directives.ScanRender | services/geminiService.ts:93-101 | Scanning a rendered reply recovers the free text and the captures of every directive, in order. |
| Directives.ParseRender | services/geminiService.ts:86-104 | Parsing inverts rendering: it gives the trimmed free text and one button per directive with a permitted view, in order. |
| Directives.SpliceExample | services/geminiService.ts:101 | `[ACT[ACTION: a\|hub]ION: b\|hub]` gives the button `a` and leaves the complete directive `[ACTION: b\|hub]` in the text, because the deletion runs once. |
| Directives.SpliceWellFormed | services/geminiService.ts:89 | The spliced reply is one well-formed directive piece followed by a tail without the opener. |
| AiService.SendMessage | services/geminiService.ts:20-113 | `sendMessageToAI` never rejects. Without a client, or when the call fails, the reply is the fixed apology with no buttons. Buttons only come from an answered call, and every button leads to a permitted view. |
| AiService.ChatContext | services/geminiService.ts:28-31 | The chat context is exactly the articles with a non-empty full text. |
| AiService.PathContext | services/geminiService.ts:188-191 | The learning-path context is exactly the articles, with or without a body. |
| AiService.ChatContextWithinPath | services/geminiService.ts:167-191 | The chat and hub-question context is the learning-path context with the bodiless articles dropped, in order. |
| AiService.AskOr | services/geminiService.ts:163-255 | The four helpers with a fallback reject exactly when there is no client; a failed call resolves to the fixed fallback. |
| AiService.RoadmapResolves | services/geminiService.ts:232-255 | With a client the roadmap request always resolves, to the fixed sentence if the call fails. |
| AiService.StrategyBrief | services/geminiService.ts:117-159 | `getAIStrategyBrief` resolves exactly when there is a client and the call is answered, to the model's text. |
| Chat.Init | components/Chatbot.tsx:25-30 | The first chat state: closed, idle, with the greeting alone. |
| Chat.Answer | components/Chatbot.tsx:52-57 | A resolved reply is appended with its text and buttons; a rejection appends the fixed trouble message with no buttons. |
| Chat.Reply | components/Chatbot.tsx:51-53 | The settling call is `sendMessageToAI`, which never rejects: the appended message is its reply, never the trouble text unless the model itself answered that, and every button it carries leads to a permitted view. |
| Chat.Next | components/Chatbot.tsx:43-71 | Each event keeps the earlier messages and adds at most one. Only a click on an offered button navigates, and it closes the window. Typing, sending and clicking act only while the window is open, since their controls are rendered only then. |
| Chat.SendGuard | components/Chatbot.tsx:43-49 | Sending acts exactly when the window is open, the input is not blank and no call is pending; it appends the untrimmed input, clears it and starts waiting. |
| Chat.ClosedIgnoresInput | components/Chatbot.tsx:83-142 | A closed window has no input field and no Send button, so typing and sending leave it unchanged. |
| Chat.TypeWhileOpen | components/Chatbot.tsx:133-140 | While the window is open and idle, typing sets the input to the field's text and adds no message. |
| Chat.TypeWhileLoading | components/Chatbot.tsx:136-140 | The input is disabled while a call is pending. |
| Chat.SettleGuard | components/Chatbot.tsx:51-59 | A settling call appends the reply of `sendMessageToAI` exactly when one was pending. |
| Chat.RunKeeps | components/Chatbot.tsx:43-71 | Over any events, senders alternate starting with the assistant, the chat is waiting exactly after a user message, user messages are non-blank without buttons, every button shown leads to a permitted view, and earlier messages are never edited or removed. |
| Chat.Reachable | components/Chatbot.tsx:26-28 | Every reachable chat starts with the greeting. |
| Chat.Exchange | components/Chatbot.tsx:43-60 | With the window open, sending a question and settling the call appends the question and the reply of `sendMessageToAI` with its buttons, and the chat is idle again. |
| Chat.NavigatesOnlyToChatViews | components/Chatbot.tsx:68-71 | Whatever the visitor does and the model answers, a click on a reply button navigates only to home, hub, services, book or courses. |
| Gate.Edit | components/Gate.tsx:39-47 | Typing changes only the field typed into. |
| Gate.Submit | components/Gate.tsx:16-20 | Submitting is possible exactly when the form is not already submitting; the handler receives the three typed fields. |
| Gate.Settle | components/Gate.tsx:19-26 | A rejection re-enables the button; success leaves it disabled. |
| Gate.NoDoubleSubmit | components/Gate.tsx:18-26 | Once submitted, the form cannot submit again until the handler rejects. |
| App.Load | App.tsx:48-86 | Start-up stores all eight results together, or nothing when any fetch rejects; loading ends either way and nothing else changes. |
| App.HandleUnlock | App.tsx:91-99 | A stored lead goes in front of the leads and unlocks the session; a rejection is caught and changes nothing; the handler never rejects. |
| App.Next | App.tsx:101-116 | No event changes the loading flag, the home-page copy or the terms. |
| App.Render | App.tsx:118-157 | The skeleton shows exactly while loading or without home-page copy. The detail and course views render nothing without their course. |
| App.TermsDialog | App.tsx:168-173 | The terms dialog shows exactly when asked for and the terms were loaded. |
| App.SelectShowsDetail | App.tsx:101-104 | Selecting a course shows its detail page and changes nothing else. |
| App.StartShowsCourse | App.tsx:106-109 | Starting a free course shows its player and keeps the earlier selection. |
| App.ExitShowsList | App.tsx:111-115 | Exiting a course shows the list with both selections cleared. |
| App.EnrollFromDetail | components/CourseDetail.tsx:13-19 | On the detail page a free course's enrol button opens the player for that same course. |
| App.UnlockIsPermanent | App.tsx:43 | Once unlocked, no event locks the session again. |
| App.RunKeepsLoad | App.tsx:48-86 | No later event touches the loading flag or the home-page copy. |
| App.FailedLoadShowsSkeleton | App.tsx:79-84 | A failed load leaves everything empty, and the skeleton shows after any later events. |
| App.GateStaysDisabled | components/Gate.tsx:16-27 | The shell's unlock handler never rejects, so after a submit the gate's button stays disabled; if the lead was not stored, the session also stays locked. |
| App.LeadsFollowStore | App.tsx:91-95 | The shell's lead list and the stored log agree after a submission when they agreed before. |
| LeadStore.GetLeads | services/leadService.ts:5-13 | The stored list, or the empty list when the key is absent or the read throws. |
| LeadStore.SaveLeads | services/leadService.ts:15-21 | A failed write leaves the store as it was; a good one stores the list under the key and nothing else changes. |
| LeadStore.SaveThenGet | services/apiService.ts:67-84 | What a good save stores, the next good read returns. |
| LeadStore.NewLead | services/leadService.ts:25-29 | The new lead is the visitor's fields plus the given id and capture time. |
| LeadStore.AddLead | services/apiService.ts:91-101 | `submitLead` returns the new lead whatever the write did; a good write puts it in front of the log as read. |
| LeadStore.AddPrepends | services/leadService.ts:23-33 | With working storage the log grows by one, at the front, keeping the earlier leads in order. |
| LeadStore.ReadFailureDropsLog | services/leadService.ts:6-12 | A read that throws makes the earlier log look empty, so the following write keeps only the new lead. |
| LeadStore.AddAllLog | services/apiService.ts:91-101 | After any series of submissions, the log is their leads newest first, then the earlier log. |
| Csv.HeaderCells | components/LeadsViewer.tsx:12-14 | The header is one line whose comma-separated cells are the five column names. |
| Csv.Quote | components/LeadsViewer.tsx:17-19 | A quoted field starts and ends with a quote. |
| Csv.Unquote | components/LeadsViewer.tsx:17-19 | The reading side of quoting is defined exactly on texts between quotes. |
| Csv.UnquoteQuote | components/LeadsViewer.tsx:17-19 | Quoting loses nothing: reading the quoted field back gives the field. |
| Csv.QuotedInnerPaired | components/LeadsViewer.tsx:17-19 | Inside the quotes, a quote only ever appears doubled. |
| Csv.QuoteAbsent | components/LeadsViewer.tsx:17-19 | Quoting adds no character other than the quote. |
| Csv.ExportEmpty | components/LeadsViewer.tsx:12-24 | Without leads, the file is the header line alone and the button is disabled. |
| Csv.DecodeRowOf | components/LeadsViewer.tsx:15-21 | A lead without commas or line breaks reads back from its record. |
| Csv.DecodeExport | components/LeadsViewer.tsx:11-24 | The export splits into the header and one record per lead, and reads back as the log in its order. |
| Markup.Paragraphs | components/ContentDetail.tsx:11-22 | The article HTML has no newline left. |
| Markup.EmptyGivesNothing | components/ContentDetail.tsx:16-19 | An empty body gives no paragraph at all. |
| Markup.ParagraphsOfBlankLines | components/ContentDetail.tsx:11-22 | Paragraphs separated by blank lines come out as one `<p>` element each, in order, with nothing removed. |
| Markup.SingleParagraph | components/ContentDetail.tsx:11-22 | A single plain paragraph is wrapped as it is. |
| Markup.StripBullets | components/BookingSection.tsx:153 | Removing the bullets that start lines never lengthens the text. |
| Markup.Brief | components/BookingSection.tsx:153 | The form's brief is no longer than the AI brief and has no two adjacent `*`. |
| Markup.PairsRemoved | components/BookingSection.tsx:153 | Deleting every `**` in one pass leaves no two adjacent `*`. |
| Markup.BriefUnbullets | components/BookingSection.tsx:153 | The clean-up undoes bulleting: star-free lines prefixed with `- ` and joined by newlines come back as the bare lines. |
| Listings.Categories | components/LearningHubSection.tsx:205 | "All", then each category once, in order of first occurrence, and nothing else. |
| Listings.HubFilter | components/LearningHubSection.tsx:207-220 | The hub lists exactly the items of the category whose lower-cased title or description contains the lower-cased query. A blank query with "All" lists everything. |
| Listings.HubFilterIsFilter | components/LearningHubSection.tsx:207-220 | The two filters in turn are one filter, so the hub keeps the items' order and multiplicity. |
| Listings.SectionFilter | components/ContentSection.tsx:29-34 | The content section lists exactly the items of the chosen category, or all of them for "All". |
| Listings.SectionAgreesWithHub | components/ContentSection.tsx:29-34 | With a blank query, the hub lists what the content section lists, and a category and its complement split the items. |
| Listings.FilterCourses | components/CoursesSection.tsx:42-45 | The whole list, or exactly the courses of the chosen type. |
| Listings.FreeAndPaidPartition | components/CoursesSection.tsx:42-45 | The free and paid tracks partition the course list, each in order. |
| Listings.ChartData | components/LearningHubSection.tsx:222-231 | One bar per article category, names distinct, each valued by the number of its articles; every article's category has a bar. |
| Listings.ChartOrder | components/LearningHubSection.tsx:222-231 | The bars' names are the article categories with repeats dropped, in order of each category's first article (`Seqs.Dedup`). |
| Listings.ChartCountsArticles | components/LearningHubSection.tsx:222-231 | The bars together count every article exactly once. |
| Listings.CapitalisedIsOrdinary | components/LearningHubSection.tsx:224-227 | A category starting with a capital letter is neither an inherited `Object.prototype` property nor integer-like, so the counting object treats it as a map key. |
| CoursePage.Enroll | components/CourseDetail.tsx:13-19 | A free course starts in place. Any other course opens its link when the link is non-empty; otherwise the click does nothing. |
| CoursePage.EnrollLabel | components/CourseDetail.tsx:48 | The caption is "Start Free Course Now" exactly for a free course; any other course's caption starts with "Enroll Now - " and continues with its price when it has one. |
| CoursePage.MissingPriceLabel | components/CourseDetail.tsx:48 | A paid course without a price reads "Enroll Now - undefined". |
| CoursePage.Recommended | components/NextSteps.tsx:12 | The recommended course is the first course with the recommended id; there is none without an id or without such a course. |
| CoursePage.CardsShape | components/NextSteps.tsx:19-60 | The "Go Deeper" card shows exactly when a recommended course exists. The buttons lead to the courses, the memberships and the booking page. |
| Hub.RenderDemo | components/LearningHubSection.tsx:254-261 | Each demo id opens its own component, and no demo shows nothing. |
| Hub.Detail | components/ContentDetail.tsx:43-61 | An article with a non-empty full text shows it as paragraphs. A demo shows a launch button carrying its demo id. Nothing else shows a body. |
| Hub.Next | components/LearningHubSection.tsx:200-252 | Opening, going back, launching and closing each set only their own part of the hub state. |
| Hub.OpenedItem | components/LearningHubSection.tsx:233-235 | The opened item is an item with the opened id, and one is found whenever such an item exists. |
| Hub.Grid | components/LearningHubSection.tsx:263-340 | The grid shows the overlay, the first resource as featured and the rest below, and the filtered cards. |
| Hub.RenderAsWritten | components/LearningHubSection.tsx:238-252 | The gate shows exactly while locked. An opened item's page comes first and never has an overlay. |
| Hub.Render | components/LearningHubSection.tsx:238-276 | Like the written version, but the demo overlay shows over the article page as well. |
| Hub.RenderFixesOnlyOverlay | components/LearningHubSection.tsx:246-276 | The corrected rendering differs from the written one only in the page's overlay. |
| Hub.LaunchHiddenAsWritten | components/ContentDetail.tsx:53-54 | As written, launching a demo from its page changes nothing on screen; the demo appears only after going back. |
| Hub.LaunchHiddenExample | components/LearningHubSection.tsx:246-252 | On the NFT demo's page, launching still shows no demo. |
| Hub.LaunchShowsDemo | components/LearningHubSection.tsx:263-274 | With the corrected rendering, launching from the page shows that demo at once. |
| Hub.OpenCardShowsItem | components/LearningHubSection.tsx:322-323 | With distinct ids, opening a card shows that card's page. |
| Hub.SwitchTool | components/LearningHubSection.tsx:126-127 | Switching tools clears the answer and keeps the inputs, any pending request and the helper it awaits. |
| Hub.Clear | components/LearningHubSection.tsx:92-97 | Clearing empties both inputs and the answer, stops waiting and keeps the tool. |
| Hub.Submit | components/LearningHubSection.tsx:99-117 | A request goes out exactly when the current input is not blank and none is pending; the untrimmed input is sent. |
| Hub.AssistantSettles | components/LearningHubSection.tsx:99-117 | With a client the assistant always settles on the model's text or the tool's fallback; without one it keeps loading. |
| Hub.SwitchKeepsHelper | components/LearningHubSection.tsx:99-127 | The tabs can be switched while a request is pending; the request still settles through the helper of the tab it was submitted from. |
| Ask.Start | components/LearningHubSection.tsx:102-103 | A request clears the old answer and waits. |
| Ask.Finish | components/LearningHubSection.tsx:104-106 | A resolved value becomes the answer and waiting ends; a rejection escapes the handler and changes nothing. |
| Ask.AskSettles | components/Hero.tsx:19-23 | A request to a helper with a fallback settles exactly when there is a client. |
| Hero.Type | components/Hero.tsx:55-58 | The goal field cannot be edited while a roadmap is being generated. |
| Hero.Submit | components/Hero.tsx:16-20 | A request goes out exactly when the goal is not blank and none is pending. |
| Hero.RoadmapAction | components/Hero.tsx:26-32 | "Let's Go" leads to the hub, courses, services or booking; text naming the Playbook, a Guide or the Intelligence Core leads to the hub. |
| Hero.RoadmapActionIsFirstMatch | components/Hero.tsx:26-32 | The target is that of the first keyword group found in the text, or the hub when none is found. |
| Hero.LetsGo | components/Hero.tsx:83-90 | The button shows exactly when a non-empty roadmap is there and nothing is pending. |
| Hero.RoadmapRequest | components/Hero.tsx:16-24 | With a client, a goal always ends with the form idle again. Without one, the rejection escapes and the form waits for good. |
| Advisor.ToggleGoal | components/ServicesSection.tsx:58-62 | Toggling removes a selected goal and appends an unselected one; no other goal changes membership. |
| Advisor.ToggleKeepsDistinct | components/ServicesSection.tsx:58-62 | Toggling keeps the selection free of duplicates. |
| Advisor.ToggleTwiceAbsent | components/ServicesSection.tsx:58-62 | Toggling an unselected goal twice gives back the selection. |
| Advisor.ToggleTwiceSameGoals | components/ServicesSection.tsx:58-62 | Toggling a selected goal twice keeps the same goals. |
| Advisor.ToggleTwicePresent | components/ServicesSection.tsx:58-62 | Toggling a selected goal twice restores the order exactly when it was last. |
| Advisor.ToggleTwiceMoves | components/ServicesSection.tsx:58-62 | Toggling a selected goal twice moves it to the end. |
| Advisor.Click | components/ServicesSection.tsx:82-86 | A goal button flips that goal's membership, also while a request is pending, and leaves the request as it is. |
| Advisor.Request | components/ServicesSection.tsx:64-71 | A request goes out exactly with a goal selected and none pending, carrying the selected goals. |
| Advisor.ClicksKeepDistinct | components/ServicesSection.tsx:82-99 | The goals sent to the advisor never repeat. |
| Advisor.AdviceRequest | services/geminiService.ts:210-227 | With a client a recommendation request always settles; without one it waits for good. |
| Cms.Delete | components/CmsSection.tsx:105-109 | A confirmed delete drops exactly the items with the id; without confirmation nothing changes. |
| Cms.DeleteSplits | components/ResourcesCmsSection.tsx:96-100 | What a delete keeps and what it drops together make up the list, the kept items in order. |
| Cms.Replace | components/CmsSection.tsx:111-119 | Saving an edit replaces exactly the items with the edited id. |
| Cms.Prepend | components/CmsSection.tsx:111-119 | Saving a new item puts it in front of the list. |
| Cms.ReplaceIdempotent | components/CmsSection.tsx:111-119 | Saving an edit twice is saving it once. |
| Cms.ReplaceSame | components/CmsSection.tsx:111-119 | With distinct ids, saving an item equal to the stored one changes nothing. |
| Cms.ReplaceThenDelete | components/CmsSection.tsx:105-119 | Editing and then deleting an item is deleting it. |
| Cms.AddThenDelete | components/CmsSection.tsx:105-119 | Deleting a freshly added item with a new id gives the list back. |
| Cms.SavesKeepDistinct | components/ResourcesCmsSection.tsx:102-110 | Editing keeps ids distinct, and so does adding with a fresh id. |
| Cms.AddNew | components/CmsSection.tsx:95-98 | "Add New" opens an empty form. |
| Cms.Edit | components/CmsSection.tsx:100-103 | "Edit" opens the form for that item. |
| Cms.Closed | components/CmsSection.tsx:121-124 | Cancel hides the form and clears the edited item. |
| Cms.Save | components/CmsSection.tsx:111-119 | An edit replaces and an addition prepends; the editor closes either way. |
| Cms.OpenContentForm | components/CmsSection.tsx:19-31 | The form opens with the edited item's fields, or empty for a new item. |
| Cms.SubmitContent | components/CmsSection.tsx:36-56 | The form submits exactly when the required fields are filled. An edit keeps the id, type, demo and full text; a new item is an article with the fresh id. |
| Cms.EditUnchangedContent | components/CmsSection.tsx:19-56 | Submitting an item's form untouched saves the item unchanged, and the list stays as it was. |
| Cms.OpenResourceForm | components/ResourcesCmsSection.tsx:14-30 | The form opens with the edited resource's fields, or as an empty template. |
| Cms.SubmitResource | components/ResourcesCmsSection.tsx:33-42 | The form submits exactly when filled, with the edited resource's id or the fresh one. |
| Cms.EditUnchangedResource | components/ResourcesCmsSection.tsx:14-42 | Submitting a resource's form untouched saves it unchanged. |
| Booking.Analyze | components/BookingSection.tsx:27-33 | A description shorter than twenty characters after trimming stays with the warning; otherwise the brief is being prepared. |
| Booking.Resolve | components/BookingSection.tsx:34-44 | The summary shows the brief, or the visitor's own description with the failure notice. |
| Booking.Next | components/BookingSection.tsx:47-59 | After the request is sent, nothing changes. |
| Booking.RunConsistent | components/BookingSection.tsx:27-59 | Every reachable state: past the first step the description is long enough; the warning only on the first step; a failed brief shows the description; a sent request was sent from the form. |
| Booking.SubmittedIsFinal | components/BookingSection.tsx:52-59 | A sent request stays sent. |
| Booking.Render | components/BookingSection.tsx:52-59 | The confirmation shows exactly once sent. The form carries the cleaned brief, which is never longer. |
| Booking.FailedBriefFallsBack | components/BookingSection.tsx:38-44 | A failed brief shows the description under the failure notice, and the form carries the cleaned description. |
| Booking.ShortObjectiveStays | components/BookingSection.tsx:28-31 | A short description keeps the visitor on the first step with the warning. |
| Booking.EditReturnsToDescription | components/BookingSection.tsx:120 | Editing returns to the description with no notice, and analysing again prepares a new brief. |
| FreeCourse.HexChar | components/FreeCourseExperience.tsx:30 | A draw prints as a lower-case hexadecimal digit. |
| FreeCourse.HexCharValue | components/FreeCourseExperience.tsx:30 | A digit reads back as its draw. |
| FreeCourse.Hash | components/FreeCourseExperience.tsx:30 | The hash is `0x` and sixty-four lower-case hexadecimal digits. |
| FreeCourse.HashRoundTrip | components/FreeCourseExperience.tsx:30 | The draws can be read back from the hash. |
| FreeCourse.StageAt | components/FreeCourseExperience.tsx:33-34 | The stage message is Preparing before 1.5 s and Confirming from 3.5 s. |
| FreeCourse.Next | components/FreeCourseExperience.tsx:28-48 | The certificate is reached only from the mint, and nothing leaves it. |
| FreeCourse.RunConsistent | components/FreeCourseExperience.tsx:23-48 | Every reachable state: no time passes and no hash exists before the claim; while minting the stage matches the time; from the claim on there is a name and a well-formed hash. |
| FreeCourse.Render | components/FreeCourseExperience.tsx:96-130 | The certificate shows exactly on success, with the course title and the next-steps cards. |
| FreeCourse.Timeline | components/FreeCourseExperience.tsx:28-43 | t ms after claiming, the stage for t shows; from 5.5 s, the certificate with the name and the hash. |
| FreeCourse.WaitSplits | components/FreeCourseExperience.tsx:33-35 | Waiting a then b shows the same as waiting a + b. |
| FreeCourse.BackKeepsName | components/FreeCourseExperience.tsx:91 | Going back from the claim form keeps the typed name. |
| FreeCourse.ClaimNeedsName | components/FreeCourseExperience.tsx:79-86 | The claim form does not submit without a name. |
| MintDemo.Next | components/demos/MintNFTDemo.tsx:23-40 | Leaving the form requires a complete form and goes to uploading; "Mint Another" on the result resets everything. |
| MintDemo.RunConsistent | components/demos/MintNFTDemo.tsx:12-33 | Past the form, the image, title and description are always present. |
| MintDemo.Render | components/demos/MintNFTDemo.tsx:42-113 | The result card shows the chosen image; the form shows exactly on the first step. |
| MintDemo.NeverMissingImage | components/demos/MintNFTDemo.tsx:104 | The non-null assertion on the result image always holds. |
| MintDemo.MintShowsEntry | components/demos/MintNFTDemo.tsx:12-40 | After both timers, the card shows what was entered, and "Mint Another" brings back the empty form. |
| MintDemo.IncompleteStays | components/demos/MintNFTDemo.tsx:29-33 | An incomplete form does not mint. |
| Dao.Cast | components/demos/DaoVotingDemo.tsx:38-52 | A vote adds the voting power to the chosen side only. |
| Dao.Vote | components/demos/DaoVotingDemo.tsx:38-52 | A second vote on a proposal is ignored; otherwise the vote is counted and the id recorded. |
| Dao.RunTallied | components/demos/DaoVotingDemo.tsx:34-52 | Each proposal ends with its starting votes plus at most one share of the power, and only if voted on. |
| Dao.StartTallied | components/demos/DaoVotingDemo.tsx:13-36 | The start state is tallied against the two initial proposals. |
| Dao.Cards | components/demos/DaoVotingDemo.tsx:70-104 | The vote buttons show exactly on proposals not yet voted on. |
| Dao.VoteHidesButtons | components/demos/DaoVotingDemo.tsx:74-104 | Voting hides that proposal's buttons only. |
| Dao.FirstVoteExample | components/demos/DaoVotingDemo.tsx:13-52 | Voting for the first proposal gives 130000 for it; a second vote changes nothing. |
| Fixtures.NavMatchesChat | constants.ts:4-10 | The header links lead, once each, to exactly the views a chat button may offer. |
| Fixtures.LearnWellFormed | constants.ts:85-199 | Every seed demo names its component, every seed article has a full text, and no two items share an id. |
| Fixtures.FeaturedIsEBook | constants.ts:248-291 | The featured resource is the E-book, with five more below it. |
| Fixtures.SeedCategoriesOrdinary | constants.ts:85-199 | Every seed category is an ordinary object key, so the chart of the seed items counts exactly as stated. |
| Fixtures.TiersWellFormed | constants.ts:202-245 | Tier names are distinct and only the Architect tier is featured. |
| Fixtures.CoursesWellFormed | constants.ts:294-390 | Course ids are distinct. A paid course has a price and a link; a free course has neither. |
| Fixtures.RecommendationsResolve | constants.ts:348-387 | Every free course recommends an existing paid course, so its certificate shows "Go Deeper". |

## Left out

- AiService.SendMessage: the promise that the text is trimmed is stated only for an answered call. The two fixed apology texts are long literals, and their trimmedness is not proved.
- Csv.DecodeExport: the round trip is proved only for leads without commas or line breaks. The reader splits on both, so a quoted field holding either is not read back.
- Markup.ParagraphsOfBlankLines: stated only for non-empty, single-line paragraphs without `<`. Other bodies follow `Paragraphs` as written, without a closed form.
- Listings.ChartData: the source counts each article into a plain object keyed by its category. For a category named after an inherited `Object.prototype` property (`__proto__`, `constructor`, `toString`, ...) that object gives no bar or a bar whose value is a string, and integer-like categories are listed first in numeric order. The model counts every category as a map key in first-occurrence order. That is what the source does for categories satisfying `Listings.OrdinaryKey`, and every seed category does (`Fixtures.SeedCategoriesOrdinary`). The chart of other categories is not modelled.
- Prompt texts and the model's replies are parameters (`AiService.Outcome`). The language model, the API key lookup and network errors are outside the program.
- The Markdown-to-HTML converters of the chat and the hub assistant (`Chatbot.tsx`, `LearningHubSection.tsx`) are regular-expression rendering and are not modelled. The article paragraphing and the booking brief clean-up are modelled.
- `localStorage` and `JSON` are a map from keys to lead lists, with read and write failure flags. Serialisation is not modelled.
- Timers are events: `Wait(ms)` in the free course and `TimerFired` in the mint demo. Clearing timers on unmount is not modelled.
- `Date.now`, `new Date().toISOString()`, `Math.random` and the file picker's object URL are parameters.
- `toLowerCase` only lower-cases ASCII letters. Strings are sequences of characters, without UTF-16 surrogates.
- The token swap demo and the DAO percentages use floating point (`toFixed`) and are not modelled.
- Browser form validation is not modelled: `type=email` and `type=url`, and the name, email and phone fields of the booking form. Only `required` on the fields the model keeps is modelled, as a non-empty check.
- Titles, descriptions, image addresses, article texts, feature lists and proposal descriptions of the seed data are replaced by a placeholder, `Fixtures.Prose`.
- Styling, scrolling, animations, the theme, the header menu, the footer and the promotional home sections are presentation only and are not modelled.

## Findings

| source | as written | input that shows it | evidently intended | confidence | as-written member | corrected member |
|---|---|---|---|---|---|---|
| components/LearningHubSection.tsx:246-274 | The article page returns before the demo overlay is drawn. "Launch Interactive Demo" (components/ContentDetail.tsx:53-54) sets the active demo, but nothing appears until the visitor goes back to the grid. | Unlocked hub, the page of item `demo1` (MintNFTDemo) open, press "Launch Interactive Demo". | The demo opens over the page at once. | not executed | Hub.LaunchHiddenAsWritten | Hub.LaunchShowsDemo |
