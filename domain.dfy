/**
 * The values the view model passes around: the domain entities it pages
 * through, the tri-state result it publishes, and the outcome of one call
 * into the stories repository.
 */
module Domain {
  import opened Kotlin

  /** A status column of the board; `name` stands for its display fields. */
  datatype Status = Status(id: int, name: string)

  /** A work item; `title` stands for its display fields. */
  datatype Story = Story(id: int, title: string)

  datatype ResultStatus = Loading | Success | Error

  /** What a result channel holds: `Result(resultStatus, data = null, message = null)`. */
  datatype Result<T> = Result(resultStatus: ResultStatus, data: Option<T>, message: Option<int>)

  /** Stands for the Android string resource `R.string.common_error_message`. */
  const CommonErrorMessage: int := 1

  /** The one error a result channel ever shows. */
  const ErrorResult: Result<seq<Status>> := Result(Error, None, Some(CommonErrorMessage))

  /** A repository call either returns a value or throws. */
  datatype Outcome<T> = Fetched(value: T) | Failed

  /** The answer of `getStatuses(sprintId)`. */
  type StatusSource = Option<int> -> Outcome<seq<Status>>

  /** The answer of `getStories(statusId, page, sprintId)`. */
  type StoryPages = (int, int32, Option<int>) -> Outcome<seq<Story>>

  /** The repository call `getStatuses(sprintId)`, answered by `source`. */
  function GetStatuses(source: StatusSource, sprintId: Option<int>): (r: Outcome<seq<Status>>) {
    source(sprintId)
  }

  /** The repository call `getStories(statusId, page, sprintId)`, answered by `pages`. */
  function GetStories(pages: StoryPages, statusId: int, page: int32, sprintId: Option<int>): (r: Outcome<seq<Story>>) {
    pages(statusId, page, sprintId)
  }

  /** `channel.value?.data.orEmpty()`. */
  function DataOrEmpty<T>(channel: Option<Result<seq<T>>>): (r: seq<T>)
    ensures channel.Some? && channel.value.data.Some? ==> r == channel.value.data.value
    ensures channel.None? || channel.value.data.None? ==> r == []
  {
    match channel
    case Some(result) => OrEmpty(result.data)
    case None => []
  }
}
