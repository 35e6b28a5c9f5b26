/** The records the stores and views exchange with the server. */
module Types {
  import opened Wrappers

  /** A tracked job application (src/types/application.ts). */
  datatype Application = Application(
    applicationId: int,
    jobId: int,
    jobTitle: string,
    companyName: string,
    applyDueDate: Option<string>,
    applyStatus: string,
    note: Option<string>,
    createdAt: string)

  /**
   * One job reference inside a notification (src/types/notification.ts).
   * `jobId` is `None` when the payload's `jobId` is not a JavaScript number.
   */
  datatype NotificationJobItem = NotificationJobItem(jobId: Option<int>, rank: int, clicked: Option<bool>)

  datatype NotificationType = CvMatch | ApplyDue | JobPopular

  /** A notification as the alarm endpoint returns it; `params` is flattened into its two fields. */
  datatype Notification = Notification(
    id: int,
    createdAt: string,
    alarmText: string,
    userId: int,
    read: bool,
    readAt: Option<string>,
    kind: NotificationType,
    dedupeKey: string,
    status: string,
    sentAt: string,
    jobs: seq<NotificationJobItem>,
    titleCode: string,
    threshold: int,
    topN: int)

  /** An event handed to the calendar view (src/types/calendar.ts); dates are time values. */
  datatype CalendarEvent = CalendarEvent(
    id: int,
    title: string,
    companyName: string,
    applyStatus: string,
    start: Option<int>,
    end: Option<int>)

  /** A job posting, reduced to the fields the stores read or write. */
  datatype Job = Job(id: int, title: string, companyName: string, isBookmarked: bool)

  /** One uploaded CV of the user; `uploadedAt` is its upload time value. */
  datatype CvMe = CvMe(id: int, userId: int, fileName: string, uploadedAt: int)

  /** JavaScript truthiness of a `string | null`: present and not empty. */
  predicate Truthy(s: Option<string>) {
    s.Some? && s.value != ""
  }
}
