/**
  The top-level state of `App.tsx`: saving a journal entry with the defaults
  JavaScript's `||` gives missing or empty fields, clearing the newsletter
  e-mail, and the dispatch from the active tab to the view it shows. React
  state updates are modelled as transitions of one state record.
*/
module App {
  import opened Common
  import opened Types

  const UntitledTitle := "Untitled Moment"
  const PlaceholderImage := "https://picsum.photos/400/300"
  const SavedDate := "Today"

  /** The `Partial<Memory>` handed to `handleSaveEntry`, as far as it is read. */
  datatype Draft = Draft(title: Option<string>, content: Option<string>, imageUrl: Option<string>, mood: Option<Mood>)

  /** `v || d` for a string that may be missing: the empty string is falsy too. */
  function OrElse(v: Option<string>, d: string): (r: string)
    ensures v.Some? && v.value != "" ==> r == v.value
    ensures v.None? || v.value == "" ==> r == d
  {
    if v.Some? && v.value != "" then v.value else d
  }

  /** The memory `handleSaveEntry` builds. The id (`Date.now()`) and the time of day are inputs. */
  function MemoryOf(draft: Draft, id: string, time: string): (m: Memory)
    ensures m.id == id && m.time == Some(time) && m.tags.None?
    ensures m.date == SavedDate && m.kind == Event
    ensures m.title == OrElse(draft.title, UntitledTitle)
    ensures m.content == (if draft.content.Some? then draft.content.value else "")
    ensures m.imageUrl == OrElse(draft.imageUrl, PlaceholderImage)
    ensures m.mood == Some(if draft.mood.Some? then draft.mood.value else Happy)
  {
    Memory(
      id,
      OrElse(draft.title, UntitledTitle),
      OrElse(draft.content, ""),
      SavedDate,
      Some(time),
      OrElse(draft.imageUrl, PlaceholderImage),
      Some(if draft.mood.Some? then draft.mood.value else Happy),
      Event,
      None)
  }

  /** A saved memory always has a title and an image, whatever the draft left out. */
  lemma MemoryOfNonEmpty(draft: Draft, id: string, time: string)
    ensures MemoryOf(draft, id, time).title != ""
    ensures MemoryOf(draft, id, time).imageUrl != ""
    ensures MemoryOf(draft, id, time).mood.Some?
  {
  }

  /** The state `App` keeps. */
  datatype AppState = AppState(
    activeTab: Tab,
    memories: seq<Memory>,
    habits: seq<Habit>,
    isNewEntryOpen: bool,
    email: string)

  /** `handleSaveEntry`: the new memory goes in front of the list and the editor closes. */
  function SaveEntry(s: AppState, draft: Draft, id: string, time: string): (r: AppState)
    ensures |r.memories| == |s.memories| + 1
    ensures r.memories[0] == MemoryOf(draft, id, time) && r.memories[1..] == s.memories
    ensures !r.isNewEntryOpen
    ensures r.activeTab == s.activeTab && r.habits == s.habits && r.email == s.email
  {
    s.(memories := [MemoryOf(draft, id, time)] + s.memories, isNewEntryOpen := false)
  }

  /** Every memory held before a save is still held, one position further on. */
  lemma SaveEntryKeeps(s: AppState, draft: Draft, id: string, time: string, i: nat)
    requires i < |s.memories|
    ensures SaveEntry(s, draft, id, time).memories[i + 1] == s.memories[i]
  {
    assert SaveEntry(s, draft, id, time).memories[1..][i] == s.memories[i];
  }

  /** The floating add button. */
  function OpenNewEntry(s: AppState): (r: AppState)
    ensures r.isNewEntryOpen && r == s.(isNewEntryOpen := true)
  {
    s.(isNewEntryOpen := true)
  }

  /** The editor's close button. */
  function CloseNewEntry(s: AppState): (r: AppState)
    ensures !r.isNewEntryOpen && r == s.(isNewEntryOpen := false)
  {
    s.(isNewEntryOpen := false)
  }

  /** The e-mail field's `onChange`. */
  function TypeEmail(s: AppState, email: string): (r: AppState)
    ensures r.email == email && r == s.(email := email)
  {
    s.(email := email)
  }

  /** `handleNewsletterSubmit`: the alert is left out, the field is cleared. */
  function NewsletterSubmit(s: AppState): (r: AppState)
    ensures r.email == "" && r == s.(email := "")
  {
    s.(email := "")
  }

  /** The navigation bar's `onTabChange`. */
  function SelectTab(s: AppState, t: Tab): (r: AppState)
    ensures r.activeTab == t && r == s.(activeTab := t)
  {
    s.(activeTab := t)
  }

  /** What `renderActiveTab` shows, with the props each view is given. */
  datatype View =
    | HabitsView(habits: seq<Habit>)
    | JournalView(memories: seq<Memory>)
    | LiveView
    | StatsView(statsMemories: seq<Memory>, statsHabits: seq<Habit>)
    | ProfileView

  function RenderActiveTab(s: AppState): (v: View)
    ensures s.activeTab == Home <==> v.HabitsView?
    ensures s.activeTab == Journal <==> v.JournalView?
    ensures s.activeTab == Live <==> v.LiveView?
    ensures s.activeTab == Stats <==> v.StatsView?
    ensures s.activeTab == Profile <==> v.ProfileView?
  {
    match s.activeTab
    case Home => HabitsView(s.habits)
    case Journal => JournalView(s.memories)
    case Live => LiveView
    case Stats => StatsView(s.memories, s.habits)
    case Profile => ProfileView
  }

  /** The tab a view belongs to. */
  function TabOf(v: View): Tab {
    match v
    case HabitsView(_) => Home
    case JournalView(_) => Journal
    case LiveView => Live
    case StatsView(_, _) => Stats
    case ProfileView => Profile
  }

  /** Each tab has its own view: the view tells which tab is active, and views get the
      current lists. */
  lemma RenderActiveTabInverse(s: AppState)
    ensures TabOf(RenderActiveTab(s)) == s.activeTab
    ensures RenderActiveTab(s).HabitsView? ==> RenderActiveTab(s).habits == s.habits
    ensures RenderActiveTab(s).JournalView? ==> RenderActiveTab(s).memories == s.memories
    ensures RenderActiveTab(s).StatsView? ==>
      RenderActiveTab(s).statsMemories == s.memories && RenderActiveTab(s).statsHabits == s.habits
  {
  }

  /** The add button is shown on every tab but the live companion. */
  function ShowsAddButton(s: AppState): (b: bool)
    ensures b <==> !RenderActiveTab(s).LiveView?
  {
    s.activeTab != Live
  }

  /** Saving from the journal tab shows the new memory first in the journal. */
  lemma SavedMemoryShown(s: AppState, draft: Draft, id: string, time: string)
    requires s.activeTab == Journal
    ensures RenderActiveTab(SaveEntry(s, draft, id, time)) ==
      JournalView([MemoryOf(draft, id, time)] + s.memories)
  {
  }
}
