# FoundationModelChatBot chat-session core, in Dafny

This project models the conversation logic of FoundationModelChatBot. The app is a SwiftUI chat client that sends a conversation to an on-device language model and streams the reply back. The views' event handlers become pure transition functions over immutable state.

- **Records**: `Chat` and `Message`, with their init defaults. A chat owns its messages: appending a message sets the message's back-reference, and deleting a chat deletes its messages. Ids are unique in the store.
- **Chat screen** (`ChatDetailView`): the send guard on trimmed input, and the send / stream / commit cycle. Also the draft cache on open and close, the auto-title request, the display sort, and the share history.
- **First screen** (`ContentView`): a single in-memory conversation that starts with a greeting. It runs the same cycle, but its prompt holds only the new text.
- **Chat list** (`ChatListView`): the newest-first query and the sweep of empty chats on appear. Also deletion by row offsets, the "+" button and the preview line.

The language model is an oracle. A streamed reply is a `Stream`: the cumulative snapshots it yields, and whether it finished or threw. The one-shot title call answers `Titled(text)` or `TitleThrew`. Each transition returns the prompt it sent, or `None` when it made no provider call. `UUID()` and `Date()` become a logical `Clock`: each new record takes the next id and the next instant.

Modules:

- `Common`: Option, `Take`, whitespace trimming, the send gate `HasContent`, and newline join/split.
- `Order`: stable insertion sort by an integer key.
- `ChatModels`: records, clock, store, the store invariant `Valid`, and store edits.
- `Prompts`: labelled entries, reply and title prompts, and the share history.
- `Streaming`: snapshot folding and what a stream commits.
- `ChatDetail`, `ContentChat`, `ChatList`: the three screens.

Three behaviours one would expect of such an app are not what the code does; the model follows the code:

- A failed stream should clear the live `response` slot. The code does not: the thrown error skips the block that clears it. `SendMessage` and `Send` model the code, and the difference is listed under Findings.
  The corrected definitions (`SubmitCorrected`, `SendCorrected`) differ from the as-written ones only in that slot (`CorrectionOnlyClearsSlot`), so the store and id results carry over to them.
- Leaving a chat does not cancel its stream: the code has no cancellation.
- A send is not blocked while a reply is still streaming: the only gate is on blank input.

## Model

| member | source | states |
|---|---|---|
| Common.Trim | FoundationModelChatBot/ChatDetailView.swift:179 | trimming with `.whitespacesAndNewlines` keeps a slice of the text with only whitespace and newlines before and after it; the slice neither starts nor ends with one, and it is empty exactly when every character is whitespace or a newline |
| Common.GateIsTrim | FoundationModelChatBot/ChatDetailView.swift:179 | the send gate `HasContent`, used by both screens' buttons, holds exactly when the input trimmed of whitespace and newlines is not empty |
| ChatModels.NewMessage | FoundationModelChatBot/ChatModels.swift:29-35 | a new message keeps exactly the given text and author flag, takes a fresh id and the current instant, and has no owning chat |
| ChatModels.NewChat | FoundationModelChatBot/ChatModels.swift:12-18 | a chat built with defaults has the given title, no messages, an empty draft, a fresh id and the current instant |
| ChatModels.Append | FoundationModelChatBot/ChatModels.swift:9 | appending keeps the earlier messages and every other field, and adds the message last with its inverse `chat` reference set to the owning chat |
| ChatModels.NoMessageStoredTwice | FoundationModelChatBot/ChatModels.swift:23 | in a valid store, two stored messages with the same id are the same message at the same place of the same chat |
| ChatModels.DuplicateChatIsInvalid | FoundationModelChatBot/ChatModels.swift:6 | a store holding the same chat twice is not valid |
| ChatModels.RemoveChats | FoundationModelChatBot/ChatListView.swift:87 | `modelContext.delete`: a chat stays in the store exactly when it was there and its id is not among the deleted ones; the clock is untouched |
| ChatModels.InsertChat | FoundationModelChatBot/ChatListView.swift:64-65 | `modelContext.insert`: the store holds exactly the old chats and the new one, one more than before |
| ChatModels.RemoveChatsCascades | FoundationModelChatBot/ChatModels.swift:9 | deleting chats removes exactly the messages those chats own; every message of a surviving chat stays in the store |
| ChatModels.RemoveChatsKeepsValid | FoundationModelChatBot/ChatModels.swift:6-9 | deleting chats keeps ids unique and every remaining chat well formed |
| ChatModels.InsertNewChatKeepsValid | FoundationModelChatBot/ChatModels.swift:6 | inserting a chat created from the store's clock keeps chat ids distinct at every position |
| ChatModels.ReplaceGrownKeepsValid | FoundationModelChatBot/ChatModels.swift:23 | writing back a chat that only gained freshly created messages keeps message ids unique across the store |
| ChatModels.FilterAppendRejected | FoundationModelChatBot/ChatListView.swift:49-52 | the sweep's filter ignores an appended chat that it rejects |
| Prompts.Entries | FoundationModelChatBot/ChatDetailView.swift:196 | one entry per message, in storage order, with the message's text, labelled `User:` for user messages and `ChatBot (you):` for bot messages |
| Prompts.BuildReplyPrompt | FoundationModelChatBot/ChatDetailView.swift:195-202 | every entry of the reply prompt carries one of the two labels, and the entries read back to the authors and texts of all messages, in order; the prompt then repeats the new user text |
| Prompts.BuildTitlePrompt | FoundationModelChatBot/ChatDetailView.swift:148-152 | the title prompt holds min(5, n) entries, each with one of the two labels, and they read back to the first messages, oldest first |
| Prompts.ShareHistory | FoundationModelChatBot/ChatDetailView.swift:28-33 | the share history is empty exactly when the chat has no messages, and otherwise starts with the first message's `User: ` / `Bot: ` line |
| Prompts.ShareHistoryRoundTrip | FoundationModelChatBot/ChatDetailView.swift:28-33 | the share history of a non-empty chat whose texts hold no newline splits into one `User: ` / `Bot: ` line per message, in storage order, and each line reads back to that message's author and text |
| Prompts.ShareHistoryOne | FoundationModelChatBot/ChatDetailView.swift:28-33 | the history of a chat with one message is that message's `User: ` / `Bot: ` line |
| Prompts.ShareHistoryAppend | FoundationModelChatBot/ChatDetailView.swift:28-33 | for any texts, multi-line replies included, each further message adds a newline and its own `User: ` / `Bot: ` line at the end, so the history is the lines of all messages, in storage order, joined by newlines |
| Streaming.Fold | FoundationModelChatBot/ChatDetailView.swift:213-215 | snapshots replace the slot: after them it holds the last snapshot, or its old value when there was none |
| Streaming.Publish | FoundationModelChatBot/ContentView.swift:110-112 | the `for try await` loop leaves the last snapshot in `response`, or the old value when there was none |
| Streaming.Consume | FoundationModelChatBot/ChatDetailView.swift:213-220 | a finished stream commits the last snapshot (`response ?? ""` when there was none) and clears the slot; a thrown stream commits nothing and leaves the last snapshot in the slot |
| Streaming.ConsumeCorrected | FoundationModelChatBot/ChatDetailView.swift:213-220 | corrected: the slot is empty after every stream, and a throw commits nothing |
| Streaming.CorrectedCommitsOwnReplies | FoundationModelChatBot/ChatDetailView.swift:217-220 | corrected, starting from an empty slot: in any run of requests each finished stream commits its own last snapshot, or `""` |
| Streaming.StaleSnapshotCommitted | FoundationModelChatBot/ChatDetailView.swift:213-218 | as written, a stream that throws after "Hi" leaves "Hi" in the slot, and a following empty finished stream commits "Hi" instead of `""` |
| ChatDetail.Mount | FoundationModelChatBot/ChatDetailView.swift:16-22 | a freshly built view shows the given chat with an empty input (not yet the draft), no partial reply, no focus and no session |
| ChatDetail.Appear | FoundationModelChatBot/ChatDetailView.swift:136-141 | on appear the input buffer is the chat's cached draft, the field is focused, and a session exists |
| ChatDetail.SendMessage | FoundationModelChatBot/ChatDetailView.swift:190-221 | the raw input becomes one user message, appended after the unchanged history, and the input is cleared. The provider is called iff a session exists, with every message including the new one, then the new text. Finished: one bot message with the last snapshot, slot cleared. Thrown or no session: no bot message; a throw leaves the last snapshot in the slot |
| ChatDetail.Submit | FoundationModelChatBot/ChatDetailView.swift:178-188 | blank input (after trimming): nothing changes and no call is made; otherwise the result is exactly `SendMessage` run on the unfocused view, so everything `SendMessage` promises holds: the raw input appended, the prompt sent iff a session exists, the commit and the slot per ending |
| ChatDetail.SendMessageGrows | FoundationModelChatBot/ChatDetailView.swift:191-218 | sending only appends messages created from the clock it was given, in creation order, owned by the chat |
| ChatDetail.SubmitGrows | FoundationModelChatBot/ChatDetailView.swift:178-188 | the same holds for the guarded button handler; a refused submission appends nothing |
| ChatDetail.SubmitKeepsStoreValid | FoundationModelChatBot/ChatModels.swift:23 | writing the chat back after a submission keeps every id in the store unique |
| ChatDetail.SubmitCorrected | FoundationModelChatBot/ChatDetailView.swift:190-221 | corrected: with a session the slot is empty afterwards; from an empty slot a finished stream appends exactly one bot message holding its own reply |
| ChatDetail.CorrectionOnlyClearsSlot | FoundationModelChatBot/ChatDetailView.swift:213-220 | the corrected submission appends the same messages, sends the same prompt and moves the clock the same way as the code as written; only the `response` slot differs, and it is empty whenever a stream ran |
| ChatDetail.SubmitCorrectedKeepsStoreValid | FoundationModelChatBot/ChatModels.swift:23 | the corrected submission also keeps every id in the store unique |
| ChatDetail.CorrectedSlotStaysEmpty | FoundationModelChatBot/ChatDetailView.swift:213-220 | corrected: the slot stays empty through any run of submissions |
| ChatDetail.StaleReplyAsWritten | FoundationModelChatBot/ChatDetailView.swift:213-220 | as written, "Hello" answered by "Hi" then a throw leaves "Hi" on screen with no bot message, and the next empty reply commits "Hi" |
| ChatDetail.StaleReplyCorrected | FoundationModelChatBot/ChatDetailView.swift:213-220 | corrected, on the same inputs: no partial stays on screen, and the empty reply commits `""` |
| ChatDetail.Disappear | FoundationModelChatBot/ChatDetailView.swift:142-162 | the draft becomes the input buffer. A title is requested iff the title is "New Chat", there is a message and a session exists, with exactly the first min(5, n) messages. The title changes only to the text of a successful reply; messages are untouched |
| ChatDetail.DraftSurvivesReopen | FoundationModelChatBot/ChatDetailView.swift:137-143 | closing and reopening a chat restores the text that was in the input buffer |
| ChatDetail.DisappearKeepsStoreValid | FoundationModelChatBot/ChatDetailView.swift:142-157 | saving the draft and title keeps the store valid |
| ChatDetail.Timeline | FoundationModelChatBot/ChatDetailView.swift:45 | the shown list is sorted by creation time and holds exactly the chat's messages |
| ChatDetail.TimelineIsStorageOrder | FoundationModelChatBot/ChatDetailView.swift:45-47 | in a valid store the shown order equals the storage order that the prompts and the share history use |
| ChatDetail.HelloScenario | FoundationModelChatBot/ChatDetailView.swift:190-220 | an empty chat, "Hello" sent, snapshots "Hi" then "Hi there!" then finish: the chat is User "Hello", Bot "Hi there!", the slot is empty and the input cleared |
| ContentChat.Initial | FoundationModelChatBot/ContentView.swift:19-21 | the conversation starts with exactly one message, the bot greeting, and no user message |
| ContentChat.Appear | FoundationModelChatBot/ContentView.swift:92-95 | on appear a session exists and nothing else changes |
| ContentChat.Send | FoundationModelChatBot/ContentView.swift:98-118 | appends the user message with the raw input and clears the input. The provider gets only the new text, and only with a session. Finished: one bot message with the last snapshot, slot cleared. Thrown or no session: no bot message; a throw leaves the last snapshot |
| ContentChat.PressSend | FoundationModelChatBot/ContentView.swift:79-88 | the send button does nothing while the trimmed input is empty; otherwise the result is exactly `Send` on the input, so the raw input is appended after the unchanged history, the new text is sent iff a session exists, and the commit and the slot follow the stream's ending |
| ContentChat.PressSendKeepsIdsFresh | FoundationModelChatBot/ContentView.swift:13 | pressing the button keeps message ids unique, whether it sends or not |
| ContentChat.SendDoesNotRecheck | FoundationModelChatBot/ContentView.swift:98-101 | `sendMessage` called with a blank input still appends and sends it: the only gate is the button |
| ContentChat.SendKeepsIdsFresh | FoundationModelChatBot/ContentView.swift:13 | message ids stay strictly increasing and below the counter, so they are unique |
| ContentChat.SendCorrected | FoundationModelChatBot/ContentView.swift:98-118 | corrected: with a session the slot is empty afterwards; from an empty slot a finished stream commits its own reply |
| ContentChat.CorrectionOnlyClearsSlot | FoundationModelChatBot/ContentView.swift:110-117 | the corrected send produces the same messages, prompt and id counter as the code as written; only `response` differs, and it is empty whenever a stream ran |
| ContentChat.SendCorrectedKeepsIdsFresh | FoundationModelChatBot/ContentView.swift:13 | the corrected send also keeps message ids unique |
| ContentChat.StaleReplyAsWritten | FoundationModelChatBot/ContentView.swift:110-117 | as written, "Hello" answered by "Hi" then a throw leaves "Hi" in `response`, and the next empty reply commits "Hi" |
| ContentChat.StaleReplyCorrected | FoundationModelChatBot/ContentView.swift:110-117 | corrected, on the same inputs: `response` is empty after the throw, and the empty reply commits `""` |
| ChatList.Query | FoundationModelChatBot/ChatListView.swift:7 | the list holds exactly the store's chats, newest first |
| ChatList.Reap | FoundationModelChatBot/ChatListView.swift:48-59 | after the sweep no chat without messages remains, and every chat with messages is kept |
| ChatList.ReapIdempotent | FoundationModelChatBot/ChatListView.swift:49-52 | sweeping twice gives the same chats as sweeping once |
| ChatList.ReapKeepsValid | FoundationModelChatBot/ChatListView.swift:49-52 | the sweep keeps the store valid |
| ChatList.DeleteAt | FoundationModelChatBot/ChatListView.swift:85-95 | the chats at the given rows of the newest-first list are gone, and nothing new appears |
| ChatList.DeleteAtRemovesExactly | FoundationModelChatBot/ChatListView.swift:85-88 | in a valid store a chat survives iff it is not at one of the given rows |
| ChatList.DeleteAtKeepsValid | FoundationModelChatBot/ChatListView.swift:85-88 | deleting rows keeps the store valid |
| ChatList.CreateChat | FoundationModelChatBot/ChatListView.swift:63-66 | "+" adds one chat titled "New Chat" with no messages and an empty draft, and navigates to it |
| ChatList.CreateChatHeadsList | FoundationModelChatBot/ChatListView.swift:64-66 | the new chat is a fresh record, the store stays valid, and the new chat heads the newest-first list |
| ChatList.UnusedNewChatIsReaped | FoundationModelChatBot/ChatListView.swift:48-52 | a new chat left without messages is gone after the next sweep, which then leaves the same chats as before |
| ChatList.Preview | FoundationModelChatBot/ChatListView.swift:40 | the preview is "No messages yet" with no messages, and otherwise the first min(80, n) characters of the last message's text |

## Left out

- SwiftUI layout, colours, scrolling, animations, the clipboard menu and the `ShareLink` plumbing. The list's split-view default detail (`chats.first`) is left out too. These are presentation only.
- The FoundationModels calls: session instructions, `prewarm`, and the `GenerationOptions` sampling (random top-1 on the chat screen, greedy on the first screen). They are foreign APIs. The model reduces them to a session flag and the `Stream` / `TitleReply` oracles.
- The exact prompt wording. The instruction sentences and Swift's `\(array)` interpolation, with its brackets, quotes and escaping, are library-defined text. Prompts are kept as their ordered labelled entries plus the new text.
- Concurrency. The `Task` wrappers, the detached title task, overlapping sends (the code has no in-flight gate), a title written after its chat was deleted, and stream cancellation (the code has none). Every request is modelled as running to completion before the next event.
- SwiftData persistence: `save()` and its printed failures. The store is an in-memory sequence of chats. The order of a relationship array is taken to be its append order.
- `UUID()` and `Date()`. A logical clock hands out increasing ids and instants; real clocks can repeat an instant, which this model does not cover.
- `FoundationModelChatBotApp.swift`. It only wires the model container and the root view.
- Prompts.ShareHistoryRoundTrip: reads the history back only when no message text holds a newline. A newline inside a text cannot be told apart from the separator between lines, so a multi-line reply does not split back into its message. `Prompts.ShareHistoryOne` and `Prompts.ShareHistoryAppend` state the joined text for every chat.
- ChatList.Preview: counts characters as Unicode scalar values, while Swift's `prefix(80)` counts grapheme clusters, so a preview of combined characters can differ in length.

## Findings

| source | as written | input that shows it | evidently intended | confidence | as-written member | corrected member |
|---|---|---|---|---|---|---|
| FoundationModelChatBot/ChatDetailView.swift:213-220 | a thrown stream skips `response = nil`, so its last snapshot stays in `response`: it is shown as a reply bubble with no message behind it, and the next stream that finishes without a snapshot commits it through `response ?? ""` | send "Hello"; stream yields "Hi" then throws; send "Again"; stream finishes with no snapshot | a failed stream clears `response`; each committed reply is that stream's own last snapshot, or `""` | not executed; medium (needs a provider error, then an empty stream) | ChatDetail.StaleReplyAsWritten | ChatDetail.SubmitCorrected |
| FoundationModelChatBot/ContentView.swift:110-117 | the same error path: a throw leaves the last snapshot in `response`, and a later empty stream commits it | send "Hello"; stream yields "Hi" then throws; send "Again"; stream finishes with no snapshot | a failed stream clears `response` | not executed; medium | ContentChat.StaleReplyAsWritten | ContentChat.SendCorrected |
