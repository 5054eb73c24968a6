/** The records and enumerations of the application's `types.ts`. */
module Types {
  import opened Common

  datatype Mood = Radiant | Happy | Neutral | Sad | Awful | Excited | Party | Loved | Calm

  /** The `type` field of a memory. */
  datatype MemoryKind = Event | Location | Restaurant

  /** A journal entry. Optional fields of the record are `Option`s. */
  datatype Memory = Memory(
    id: string,
    title: string,
    content: string,
    date: string,
    time: Option<string>,
    imageUrl: string,
    mood: Option<Mood>,
    kind: MemoryKind,
    tags: Option<seq<string>>)

  /** A daily habit: `current` of `total` repetitions done today. */
  datatype Habit = Habit(
    id: string,
    title: string,
    goal: string,
    current: int,
    total: int,
    icon: string,
    color: string)

  /** The navigation tabs (`AppTab`). */
  datatype Tab = Home | Journal | Live | Stats | Profile
}
