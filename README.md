# A verified model of the SwiftUI tutorial app's logic and its chat relay

This project models in Dafny the rules inside a Korean SwiftUI tutorial app and its Socket.IO chat server, and proves what they promise.

- **Bible reader** (`BibleLoader` and the Bible screens):
  - parsing the keys of the `bible.json` dictionary (`"창1:3"`) into verses, and dropping malformed keys;
  - grouping the verses into the 66 books in canonical order, then into chapters sorted by number, with each chapter's verses sorted by verse number;
  - `Chapter.append`;
  - the verse count of a book;
  - the bookmark screen's filter;
  - the swipe card's offset and open state.
- **Chat relay** (`server.js`):
  - the record the `chat` handler stores;
  - the single error event a failed insert sends to its sender, and the broadcast of a successful one;
  - the `disconnect` handler;
  - the `/past-message` history query and its response.
- **Walking character** (`AmongUsBodyViewModel`): the animation frame tick, the position tick with its bounce off the four walls, `stopWalking` and the flip toggle.
- **To-do list**:
  - the "how long ago" label of a card;
  - the weekday selector;
  - the record sent for a new to-do and its alarm notification;
  - the fetched list;
  - `PlanType`;
  - the `CodingKeys` tables of the to-do records and of the `CodableParent`/`CodableChild` example.
- **Portfolio**:
  - the fetched list and its top-level nodes;
  - the add form's record and its reset;
  - `loadChildren`;
  - the placeholder-or-list rule;
  - the `CodingKeys` tables.

Backend calls (Supabase inserts and queries, the session, the socket transport) are not modelled. Their results are inputs to the methods. Where the source changes state in place, the model is a class whose methods change their fields, and each method states the whole new state.

Modules, one per source file or concern:

| module | file | models |
|---|---|---|
| `Common` | common.dfy | `Option`, the outcome of an awaited call, `UUID`, `Date` |
| `SeqUtil` | seq_util.dfy | sorting by key, `filter` by key, `Dictionary(grouping:)`, `prefix`, sorted key sets |
| `Decimal` | decimal.dfy | Swift's `Int(String)` and `"\(n)"` for 64-bit `Int` |
| `BibleCanon` | bible_canon.dfy | `bookOrder` and `bookNames` |
| `BibleModel` | bible_model.dfy | `Verse`, `Chapter` (with `append`), `Book`, `Bookmark` |
| `BibleParse` | bible_parse.dfy | `loadVerses`: `split(separator:)`, the digit partition, the key guards |
| `BibleLoader` | bible_loader.dfy | `loadBible`: grouping into books and chapters |
| `BibleViews` | bible_views.dfy | `calculateVerseCount`, the bookmark filter, the swipe card |
| `ChatServer` | chat_server.dfy | `server.js` handlers |
| `AmongUsWalking` | among_us_walking.dfy | `AmongUsBodyViewModel` |
| `TodoListCard` | todo_list_card.dfy | `getCreateAtString` |
| `WeekdaySelector` | weekday_selector.dfy | `TodoListWeekdaySelector` |
| `Json` | json.dfy | JSON objects as key-to-value maps, for the coding-key tables |
| `TodoModels` | todo_models.dfy | `PlanType`, `TodoInsert`, `TodoResponse`, `CodableParent`, `CodableChild` |
| `TodoListViewModel` | todo_list_view_model.dfy | `TodoListViewModel` |
| `PortfolioModels` | portfolio_models.dfy | `PortfolioInsert`, `PortfolioResponse` |
| `PortfolioViewModel` | portfolio_view_model.dfy | `PortfolioViewModel`, the `PortfolioView` display rule |

## Model

| member | source | states |
|---|---|---|
| BibleModel.Chapter.Append | swift_tutorial/BibieView.swift:20-23 | appending keeps the chapter number; the verses afterwards are the old verses plus the new one (as a multiset), sorted by verse number |
| SeqUtil.SortBy | swift_tutorial/BibieView.swift:103 | sorting by a key yields a sequence in ascending key order that is a permutation of the input |
| SeqUtil.InsertBySorted | swift_tutorial/BibieView.swift:22 | inserting into a sorted sequence keeps it sorted |
| SeqUtil.CompactMapMembers | swift_tutorial/BibieView.swift:125 | `compactMap` keeps a value iff some element maps to it |
| SeqUtil.Select | swift_tutorial/BibieView.swift:91 | one group of `Dictionary(grouping:)`: only elements of the input with that key, never more of them than the input has |
| SeqUtil.SelectCount | swift_tutorial/BibieView.swift:91 | a group holds each element with the key exactly as often as the input does, and nothing else |
| SeqUtil.SelectAppend | swift_tutorial/BibieView.swift:91 | grouping keeps input order: the group of a concatenation is the concatenation of the groups |
| SeqUtil.GroupedIsPermutation | swift_tutorial/BibieView.swift:91 | when every element's key is listed once, the groups together are a permutation of the input |
| SeqUtil.SortedSet | swift_tutorial/BibieView.swift:102 | `keys.sorted()`: strictly ascending, holding exactly the values of the input |
| SeqUtil.Take | socket_IO_server/server.js:97 | `limit(n)`: a prefix of the input of at most n elements, the whole input when it is short enough |
| Decimal.ParseInt | swift_tutorial/BibieView.swift:130 | `Int(s)` accepts an optional sign and one or more ASCII digits, and only values in the 64-bit range |
| Decimal.ParseIntToString | swift_tutorial/BibieView.swift:130 | parsing the decimal text of any 64-bit integer gives it back |
| Decimal.ParseIntPlus | swift_tutorial/BibieView.swift:130 | a leading `+` is accepted |
| Decimal.ParseIntShape | swift_tutorial/BibieView.swift:128-131 | `Int(s)` succeeds only on one or more ASCII digits after at most one `+` or `-`, and text without a `-` gives a non-negative value |
| BibleCanon.BookOrderPositions | swift_tutorial/BibieView.swift:51-67 | `bookOrder` has 66 entries, and the canonical index of its i-th entry is i |
| BibleCanon.BookOrderIsDistinct | swift_tutorial/BibieView.swift:51-67 | no abbreviation occurs twice in `bookOrder` |
| BibleCanon.BookOrderHangul | swift_tutorial/BibieView.swift:51-67 | every abbreviation is one or two Hangul syllables |
| BibleCanon.BookNamesMatchOrder | swift_tutorial/BibieView.swift:51-85 | the keys of `bookNames` are exactly the abbreviations of `bookOrder` |
| BibleCanon.Testaments | swift_tutorial/BibieView.swift:52-66 | the Old Testament runs from 창 (index 0) to 말 (index 38), the New from 마 (39) to 계 (65) |
| BibleParse.SplitPieces | swift_tutorial/BibieView.swift:126 | `split(separator:)` gives only non-empty pieces without the separator |
| BibleParse.SplitKeepsText | swift_tutorial/BibieView.swift:126 | the pieces put together are the text with the separators removed |
| BibleParse.SplitAppend | swift_tutorial/BibieView.swift:126 | splitting `a + sep + b` splits `a` and `b` separately |
| BibleParse.SplitLeading | swift_tutorial/BibieView.swift:126 | leading separators make no piece |
| BibleParse.SplitTrailing | swift_tutorial/BibieView.swift:126 | trailing separators make no piece |
| BibleParse.Numerals | swift_tutorial/BibieView.swift:137-143 | the chapter string holds only numeric characters |
| BibleParse.Letters | swift_tutorial/BibieView.swift:137-143 | the abbreviation holds only non-numeric characters |
| BibleParse.PartitionIsPermutation | swift_tutorial/BibieView.swift:137-143 | every character of the front part lands in exactly one of the two strings |
| BibleParse.PartitionAppend | swift_tutorial/BibieView.swift:137-143 | the partition keeps the characters' order |
| BibleParse.Partition | swift_tutorial/BibieView.swift:133-143 | the loop's `abbrev` and `chapter` are the non-numeric and the numeric characters of the front part, in order |
| BibleParse.VerseOf | swift_tutorial/BibieView.swift:125-151 | a verse is made from a key exactly when the key parses |
| BibleParse.ParseEntry | swift_tutorial/BibieView.swift:125-151 | the imperative per-key parse gives exactly the verse the key denotes, or none |
| BibleParse.ParseKeyBounds | swift_tutorial/BibieView.swift:126-149 | an accepted key names a book of `bookOrder`, a chapter in 0 to `Int.max` (the numeric run carries no sign) and a verse in `Int`'s range |
| BibleParse.AbbreviationsAreText | swift_tutorial/BibieView.swift:51-67 | no book abbreviation holds a numeric character, so the partition never splits one |
| BibleParse.ParseKeyLenient | swift_tutorial/BibieView.swift:126-131 | extra colons before, between or after the two parts, and a signed verse number, still give the same reference |
| BibleParse.ParseKeyRoundTrip | swift_tutorial/BibieView.swift:125-151 | the key written for any book, chapter and verse parses back to them |
| BibleParse.Accept | swift_tutorial/BibieView.swift:145-151 | an accepted entry becomes a verse whose book name is `bookNames[abbrev]`, with the entry's text and id |
| BibleParse.LoadVerses | swift_tutorial/BibieView.swift:125-152 | `compactMap`: at most one verse per entry, each well named |
| BibleParse.LoadVersesKeepsAccepted | swift_tutorial/BibieView.swift:125-152 | a verse is loaded iff some entry of the dictionary is accepted as it |
| BibleLoader.ChapterIndexes | swift_tutorial/BibieView.swift:101-102 | the chapter numbers are strictly ascending and are exactly those some verse has |
| BibleLoader.ChaptersAscending | swift_tutorial/BibieView.swift:101-105 | a book's chapters come in strictly ascending number |
| BibleLoader.ChaptersPresent | swift_tutorial/BibieView.swift:101-105 | there is a chapter with a number iff some verse of the book has it |
| BibleLoader.ChaptersContents | swift_tutorial/BibieView.swift:101-105 | each chapter holds exactly the verses with its number, sorted by verse number |
| BibleLoader.ChaptersNonEmpty | swift_tutorial/BibieView.swift:101-105 | no chapter is empty |
| BibleLoader.ChaptersKeepVerses | swift_tutorial/BibieView.swift:101-105 | the chapters together hold exactly the book's verses |
| BibleLoader.GroupByBook | swift_tutorial/BibieView.swift:91 | the grouping has a key iff some verse has that abbreviation, and its value is that book's verses in order |
| BibleLoader.GroupByBookNonEmpty | swift_tutorial/BibieView.swift:91-98 | `grouped[abbrev]` exists iff the book has verses |
| BibleLoader.CollectBooks | swift_tutorial/BibieView.swift:93-110 | the loop over `bookOrder` builds exactly the books of the specification function `BooksOf` |
| BibleLoader.LoadBible | swift_tutorial/BibieView.swift:87-114 | `loadBible` gives the books of the loaded verses, in `bookOrder`, named from `bookNames` |
| BibleLoader.BooksOfFields | swift_tutorial/BibieView.swift:96-109 | book i has id i, a listed abbreviation, the name `bookNames` gives it, some verses, and the chapters of exactly those verses |
| BibleLoader.BooksOfOrdered | swift_tutorial/BibieView.swift:96-110 | books appear in the order of their abbreviations in `bookOrder` |
| BibleLoader.BooksOfPresence | swift_tutorial/BibieView.swift:96-98 | a book appears iff its abbreviation is listed, named, and has verses |
| BibleLoader.BooksOfPresenceListed | swift_tutorial/BibieView.swift:96-98 | a listed and named book appears iff it has verses |
| BibleLoader.AllVersesGrouped | swift_tutorial/BibieView.swift:91-110 | when every verse's book is named, the books together hold the verses grouped in book order |
| BibleLoader.CanonicalPositions | swift_tutorial/BibieView.swift:96-110 | books that follow `bookOrder` have strictly ascending canonical positions |
| BibleLoader.LoadBibleCanonicalOrder | swift_tutorial/BibieView.swift:87-110 | the loaded Bible's books come in strictly ascending canonical position |
| BibleLoader.LoadBibleSkipsEmpty | swift_tutorial/BibieView.swift:96-98 | a canonical book appears in the loaded Bible iff some loaded verse belongs to it |
| BibleLoader.LoadBibleKeepsVerses | swift_tutorial/BibieView.swift:87-114 | every loaded verse lands in exactly one chapter of one book, and nothing else is there |
| BibleViews.CalculateVerseCount | swift_tutorial/BibieView.swift:276-283 | the loop's result is the sum of the chapters' verse counts |
| BibleViews.TotalVersesCounts | swift_tutorial/BibieView.swift:276-283 | that sum is the number of verses the chapters hold together |
| BibleViews.LoadedVerseCount | swift_tutorial/BibieView.swift:276-283 | for a loaded book the count is the number of loaded verses of that book |
| BibleViews.BookmarkedIds | swift_tutorial/BibieView.swift:228 | the id set holds exactly the `verseID`s of the bookmarks |
| BibleViews.BookmarkedVersesCount | swift_tutorial/BibieView.swift:230-232 | the filter keeps each verse whose id is bookmarked as often as it occurs, and no other verse |
| BibleViews.BookmarkedVersesAppend | swift_tutorial/BibieView.swift:230-232 | the filter keeps the verses' order |
| BibleViews.BookmarkScreenShows | swift_tutorial/BibieView.swift:226-232 | a verse is shown iff it is loaded and some bookmark points at its id |
| BibleViews.BookmarkScreen.Load | swift_tutorial/BibieView.swift:225-234 | after the task the screen is not loading and shows the bookmarked loaded verses |
| BibleViews.DragOffset | swift_tutorial/BibieView.swift:330-335 | the offset stays in [-80, 0]: it follows a leftward drag down to -80, and is 0 for a rightward one |
| BibleViews.SnapsOpenIff | swift_tutorial/BibieView.swift:343 | the card stays open exactly when the drag ended at least 80 points to the left |
| BibleViews.EndAgreesWithDrag | swift_tutorial/BibieView.swift:338-343 | the drag ends open exactly when the offset had reached the full swipe |
| BibleViews.ButtonOpacity | swift_tutorial/BibieView.swift:321 | the action button's opacity is non-negative, at most 1 for an offset in range, and 1 exactly when fully open |
| BibleViews.SwipeableVerseCard.DragChanged | swift_tutorial/BibieView.swift:328-339 | the offset follows the drag, `isSwipe` holds iff the offset's magnitude reaches 80, and the card stays valid |
| BibleViews.SwipeableVerseCard.DragEnded | swift_tutorial/BibieView.swift:340-352 | the card snaps to (-80, open) or (0, closed) |
| BibleViews.SwipeableVerseCard.Close | swift_tutorial/BibieView.swift:354-372 | a tap, or the action button after its action, closes the card |
| ChatServer.UserIdOf | socket_IO_server/server.js:57 | `socket.user_id || null`: the id is kept iff present and non-empty |
| ChatServer.RecordFor | socket_IO_server/server.js:48-58 | the stored record copies content and username, has room "public" and the socket's user id or null |
| ChatServer.RoomIsIgnored | socket_IO_server/server.js:48-56 | the room the client sends makes no difference to the record |
| ChatServer.FirstRow | socket_IO_server/server.js:68 | `data[0]`: the first returned row, absent when none came back |
| ChatServer.Delivered | socket_IO_server/server.js:61-68 | on an insert error only the sender gets one error event, and only if it is still connected; on success every socket connected at that point gets one chat event with the first row |
| ChatServer.FailureIsPrivate | socket_IO_server/server.js:61-65 | a failed insert sends exactly one event, to the sender if it is still connected, and no chat event |
| ChatServer.SuccessIsBroadcast | socket_IO_server/server.js:68 | a successful insert reaches a socket iff it is connected, the sender included when still connected, and sends no error |
| ChatServer.ChatRelay.OnChat | socket_IO_server/server.js:45-69 | a missing or null payload changes nothing; otherwise one record is sent to the store, and each socket's outbox grows by exactly what `Delivered` gives it, the sender possibly having disconnected during the insert |
| ChatServer.ChatRelay.OnDisconnect | socket_IO_server/server.js:71-73 | disconnecting changes nothing |
| ChatServer.ColumnsOf | socket_IO_server/server.js:95 | the query keeps content, username and created_at of each row, in order |
| ChatServer.OldestRowsSplit | socket_IO_server/server.js:96-97 | the picked rows are a prefix of the time-sorted table, and the rest of it holds exactly the rows left out |
| ChatServer.OldestRowsShape | socket_IO_server/server.js:93-97 | the query picks min(n, 50) rows of the table, in ascending time |
| ChatServer.OldestRowsAreOldest | socket_IO_server/server.js:96-97 | no row left out is older than one picked: the query returns the oldest 50 messages, not the latest |
| ChatServer.SplitSorted | socket_IO_server/server.js:96-97 | in a time-sorted list no row after a cut is older than one before it |
| ChatServer.HistoryQueryShape | socket_IO_server/server.js:93-97 | the history has at most 50 rows, in ascending created_at |
| ChatServer.PastMessages | socket_IO_server/server.js:99-105 | a query error gives status 500 with "서버 오류"; otherwise the rows, or [] when the data is null |
| ChatServer.PastMessagesOfTable | socket_IO_server/server.js:90-106 | when the query answers, the endpoint returns its rows, at most 50 |
| AmongUsWalking.NextFrame | swift_tutorial/AmongUsWalkingView.swift:241-248 | the frame stays in [0, 5): it resets to 0 when standing, and advances with wrap-around when walking |
| AmongUsWalking.FramesCycle | swift_tutorial/AmongUsWalkingView.swift:247 | after n walking ticks the frame is (start + n) mod 5 |
| AmongUsWalking.Bounce | swift_tutorial/AmongUsWalkingView.swift:258-290 | one axis: the speed is kept; inside the walls the move is plain; past the low wall the position is the wall and the velocity points up the axis; otherwise past the high wall it is that wall and the velocity points down; with the walls in order the position ends between them |
| AmongUsWalking.AmongUsBody.FrameTick | swift_tutorial/AmongUsWalkingView.swift:241-248 | the frame timer's tick sets the frame to `NextFrame` |
| AmongUsWalking.AmongUsBody.PositionTick | swift_tutorial/AmongUsWalkingView.swift:251-291 | nothing changes when standing; otherwise each axis bounces, the speed is kept, and on a screen at least 100 by 280 the character ends inside the play area |
| AmongUsWalking.AmongUsBody.StopWalking | swift_tutorial/AmongUsWalkingView.swift:294-303 | the three timers are gone, walking stops, and the frame is 0 |
| AmongUsWalking.AmongUsBody.Walking | swift_tutorial/AmongUsWalkingView.swift:227-249 | the character is stopped, takes the new heading, and the three timers are scheduled |
| AmongUsWalking.AmongUsBody.WalkingTick | swift_tutorial/AmongUsWalkingView.swift:231-233 | the walking timer gives a new heading and starts walking |
| AmongUsWalking.AmongUsBody.WalkPause | swift_tutorial/AmongUsWalkingView.swift:235-237 | three seconds later walking stops |
| AmongUsWalking.AmongUsBody.ToggleIsWalking | swift_tutorial/AmongUsWalkingView.swift:64-67 | the toggle ends stopped with the timers scheduled, whatever the flag was |
| AmongUsWalking.AmongUsBody.ToggleIsFlip | swift_tutorial/AmongUsWalkingView.swift:69-71 | the flip flag is negated and nothing else changes |
| AmongUsWalking.AmongUsBody.Appear | swift_tutorial/AmongUsWalkingView.swift:31-34 | the screen size is recorded and the character centred |
| TodoListCard.CreateAtLabel | swift_tutorial/TodoListView/TodoListCard.swift:37-58 | missing components count as 0; years if positive, else months, days, hours if positive, else minutes when more than 5, else "just now" |
| TodoListCard.NoIsoDate | swift_tutorial/TodoListView/TodoListCard.swift:52-58 | the ISO-date default case is never taken, and every count shown is positive |
| TodoListCard.LabelTextInjective | swift_tutorial/TodoListView/TodoListCard.swift:44-55 | different labels the switch can give read differently |
| TodoListCard.DigitsPrefixUnique | swift_tutorial/TodoListView/TodoListCard.swift:45-53 | a number's digits followed by a unit split in one way only |
| TodoListCard.TextStart | swift_tutorial/TodoListView/TodoListCard.swift:44-55 | a count label starts with a digit and "방금 전" does not |
| WeekdaySelector.DayName | swift_tutorial/TodoListView/TodoListWeekdaySelector.swift:6-20 | `weekdays[index - 1]` is in bounds for every index 1...7 |
| WeekdaySelector.Toggle | swift_tutorial/TodoListView/TodoListWeekdaySelector.swift:12-16 | the tapped index is selected afterwards iff it was not before, and no other index changes |
| WeekdaySelector.ToggleTwice | swift_tutorial/TodoListView/TodoListWeekdaySelector.swift:12-16 | tapping the same day twice restores the selection |
| WeekdaySelector.ToggleCommutes | swift_tutorial/TodoListView/TodoListWeekdaySelector.swift:12-16 | taps on two days give the same selection in either order |
| WeekdaySelector.ToggleKeepsDays | swift_tutorial/TodoListView/TodoListWeekdaySelector.swift:10-16 | only indices 1...7 are ever selected |
| WeekdaySelector.Selector.constructor | swift_tutorial/TodoListView/TodoListWeekdaySelector.swift:4 | the selection starts empty |
| WeekdaySelector.Selector.Tap | swift_tutorial/TodoListView/TodoListWeekdaySelector.swift:11-16 | a tap toggles the day and the selection stays within 1...7 |
| Json.OptionalDateAt | swift_tutorial/TodoListView/TodoListView.swift:97-114 | an optional date decodes as nil when its key is missing or null |
| Json.WithDate | swift_tutorial/TodoListView/TodoListView.swift:97-114 | an optional date is written only when present, and decodes back to itself |
| Json.WithUuid | swift_tutorial/PortfolioView/PortfolioView.swift:47-60 | an optional id is written only when present, and decodes back to itself |
| TodoModels.PlanId | swift_tutorial/TodoListView/TodoListView.swift:87 | a plan type's `id` names it back through `PlanType(rawValue:)`, and no other type has that id, as `Identifiable` needs |
| TodoModels.PlanTypeOf | swift_tutorial/TodoListView/TodoListView.swift:83-86 | `PlanType(rawValue:)` only returns the type with that raw value |
| TodoModels.PlanTypeRoundTrip | swift_tutorial/TodoListView/TodoListView.swift:83-86 | each type's raw value names it back, and each is in `allCases` |
| TodoModels.PlanTypeOfIff | swift_tutorial/TodoListView/TodoListView.swift:83-86 | a raw value names a type iff it is "Daily" or "Event" |
| TodoModels.TodoInsertKeysDistinct | swift_tutorial/TodoListView/TodoListView.swift:99-104 | the four keys of `TodoInsert` are distinct |
| TodoModels.EncodeTodoInsert | swift_tutorial/TodoListView/TodoListView.swift:90-105 | the encoded object has keys title, content, is_alarm, and alarm_time only when an alarm time is set |
| TodoModels.TodoInsertRoundTrip | swift_tutorial/TodoListView/TodoListView.swift:90-105 | decoding an encoded insert gives it back |
| TodoModels.TodoInsertOmitsServerFields | swift_tutorial/TodoListView/TodoListView.swift:91-95 | no id, completed, created_at or user_id is sent |
| TodoModels.TodoResponseKeysDistinct | swift_tutorial/TodoListView/TodoListView.swift:117-126 | the eight keys of `TodoResponse` are distinct |
| TodoModels.TodoResponseRoundTrip | swift_tutorial/TodoListView/TodoListView.swift:107-127 | decoding an encoded response gives it back |
| TodoModels.TodoResponseMissingFields | swift_tutorial/TodoListView/TodoListView.swift:107-127 | a row without an id fails to decode; one without created_at decodes with it nil |
| TodoModels.CodableKeysDistinct | swift_tutorial/TodoListView/TodoListView.swift:135-152 | the keys of each of the two coding tables are distinct |
| TodoModels.EncodeChild | swift_tutorial/TodoListView/TodoListView.swift:143-152 | the child is written under name, parent_age and birth_time |
| TodoModels.EncodeParent | swift_tutorial/TodoListView/TodoListView.swift:129-152 | the parent's age is under "age" and the child is nested under "child" with its age under "parent_age" |
| TodoModels.ChildRoundTrip | swift_tutorial/TodoListView/TodoListView.swift:143-152 | decoding an encoded child gives it back |
| TodoModels.ParentRoundTrip | swift_tutorial/TodoListView/TodoListView.swift:129-152 | decoding an encoded parent, child included, gives it back |
| TodoListViewModel.NewTodoData | swift_tutorial/TodoListView/TodoListViewModel.swift:53-62 | the record copies title and content, `isAlarm` is the alarm switch, and the alarm time is present iff the alarm is on, equal to the selected date |
| TodoListViewModel.NotificationFor | swift_tutorial/TodoListView/TodoListViewModel.swift:64-82 | nothing is scheduled without an alarm time; otherwise the to-do's title and content at that time |
| TodoListViewModel.NotifiesIffAlarm | swift_tutorial/TodoListView/TodoListViewModel.swift:45-82 | a new to-do schedules a notification iff its alarm is on, at the selected date |
| TodoListViewModel.ViewModel.FetchTodo | swift_tutorial/TodoListView/TodoListViewModel.swift:17-30 | a successful fetch replaces the list; a failed one leaves it |
| TodoListViewModel.ViewModel.AddTodo | swift_tutorial/TodoListView/TodoListViewModel.swift:32-51 | without a session nothing is sent; otherwise the form's record is sent, and only after a successful insert is the notification scheduled and the list refetched |
| PortfolioModels.PortfolioKeysDistinct | swift_tutorial/PortfolioView/PortfolioView.swift:49-69 | the keys of each coding table are distinct |
| PortfolioModels.EncodeInsert | swift_tutorial/PortfolioView/PortfolioView.swift:44-54 | a new node is sent with title and content, and parent_id only when it has a parent |
| PortfolioModels.InsertRoundTrip | swift_tutorial/PortfolioView/PortfolioView.swift:44-54 | decoding an encoded insert gives it back |
| PortfolioModels.ResponseRoundTrip | swift_tutorial/PortfolioView/PortfolioView.swift:56-70 | decoding an encoded node gives it back |
| PortfolioModels.MissingParentIsTopLevel | swift_tutorial/PortfolioView/PortfolioView.swift:60-67 | a row with no or a null parent_id reads back as top-level |
| PortfolioViewModel.TopLevelCount | swift_tutorial/PortfolioView/PortfolioViewModel.swift:25 | the filter keeps each top-level node as often as it occurs, and no child node |
| PortfolioViewModel.TopLevelAppend | swift_tutorial/PortfolioView/PortfolioViewModel.swift:25 | the filter keeps the order |
| PortfolioViewModel.TopLevelMembers | swift_tutorial/PortfolioView/PortfolioViewModel.swift:25 | a node is listed at the top level iff it was fetched and has no parent |
| PortfolioViewModel.NewPortfolioData | swift_tutorial/PortfolioView/PortfolioViewModel.swift:47-50 | the record copies title, content and parent id unchanged |
| PortfolioViewModel.LoadChildren | swift_tutorial/PortfolioView/PortfolioViewModel.swift:58-73 | the query's rows, or none when it throws |
| PortfolioViewModel.Display | swift_tutorial/PortfolioView/PortfolioView.swift:11-18 | the placeholder shows iff nothing was fetched; otherwise the list of top-level nodes |
| PortfolioViewModel.ViewModel.FetchPortfolios | swift_tutorial/PortfolioView/PortfolioViewModel.swift:16-29 | success replaces both lists, the top list being the top-level nodes; failure changes nothing |
| PortfolioViewModel.ViewModel.ClearField | swift_tutorial/PortfolioView/PortfolioViewModel.swift:52-56 | title and content become empty and the parent nil |
| PortfolioViewModel.ViewModel.AddPortfolio | swift_tutorial/PortfolioView/PortfolioViewModel.swift:31-45 | the form's record is sent; a failed insert changes nothing; a successful one refetches and then clears the form |

## Left out

- File and JSON I/O of `loadVerses`: `Bundle` lookup, `Data(contentsOf:)`, `JSONDecoder` and the `fatalError`s on failure. The decoded `[String: String]` dictionary is an input, given as a sequence of entries. Its iteration order, which fixes the order of the loaded verses, is part of that input.
- Verse ids: each load gives every verse a fresh `UUID()`. Ids are part of the input entries. A bookmark saved against one load's ids does not match the next load's verses; the model treats any id set as possible.
- BibleParse.IsNumber: Swift's `Character.isNumber` is a Unicode property. The model lists ASCII digits and the main numeric blocks (superscripts, vulgar fractions, Arabic-Indic digits, Roman numerals, circled numbers, fullwidth digits), not every numeric code point. Characters are code points, not grapheme clusters, and strings compare code point by code point: Swift compares `bookNames` keys by canonical equivalence, so a key whose Hangul is written as decomposed jamo is accepted by the app and dropped by the model.
- Sorting: Swift's `sort`/`sorted` and the database's `order` promise nothing about the order of equal keys. The model's sort keeps input order for them. Contracts state only sortedness and permutation, which hold for any order of ties.
- BibleViews: `CGFloat` rounding is not modelled (offsets are `real`). The `executeAction` helper is empty and is not modelled. The action button's `action()` closure is outside the card and is left out.
- ChatServer: the Socket.IO transport, Express static serving, logging and the Supabase client are not modelled. The insert and query results are inputs. `data[0]` of an empty result is modelled as an absent row. The history query returns the oldest 50 messages, as written, not the latest 50. The rejected promise of a handler that throws on a missing payload is not modelled beyond "nothing is inserted or emitted".
- The chat client in `MessageView.swift` is not part of this model.
- AmongUsWalking:
  - the timers are not run; each firing is a method call, and a timer is recorded only as scheduled or not;
  - `randomDirection`'s random angle and `cos`/`sin` are replaced by an input heading;
  - `CGFloat` rounding and the animation are not modelled;
  - the mask image and its picker are left out.
- TodoListCard: `Calendar.dateComponents` is not modelled; the five components are inputs. The ISO-8601 text of the unreachable default case is an input.
- TodoListViewModel:
  - `UNUserNotificationCenter`, the request's fresh identifier and the calendar trigger's minute precision are not modelled; the notification is returned with its firing date;
  - the `selectedOption` plan type is held but never used by the view model;
  - the database's `created_at` descending order of the fetched list is the store's business and is left out.
- Json: only the coding-key tables are modelled. How `JSONEncoder`/`JSONDecoder` write dates, UUIDs and numbers, and Swift's 64-bit `Int` bounds on decoded ages, are left out. Dates and UUIDs are leaf values.
- PortfolioViewModel: the `eq("parent_id")`/`eq("user_id")` filters of `loadChildren` run in the database; their rows are an input. The add sheet's `addChild`, which sets the parent id before adding, belongs to the view and is not modelled. Because a failed add skips `clearField()` (the `!inserted` ensures of `AddPortfolio` keeps `createdParentId`), a failed child add leaves the parent's id in the form, and the next add from the top level is stored under that parent.
- SwiftUI view bodies, layout, navigation, sheets, the photo picker, the crop view, Google sign-in and the app delegate are not part of this model.
