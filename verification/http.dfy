/** Response shapes of the `/api/tasks` endpoints and the messages they carry. */
module Http {
  import opened Schema

  /** A row of the admin user listing: no password column, plus `task_count`. */
  datatype UserSummary = UserSummary(id: int, name: string, email: string, createdAt: int, taskCount: nat)

  /** A row of the admin task listing: `t.*` plus the owner's `user_name` and `user_email`. */
  datatype OwnedTask = OwnedTask(task: Task, userName: string, userEmail: string)

  /** The JSON body of a response. `NoRoute` is the framework's own "Cannot
      <METHOD> <path>" page for a request no route matches. */
  datatype Body =
    | Message(text: string)
    | TaskRow(task: Task)
    | TaskRows(tasks: seq<Task>)
    | UserSummaries(users: seq<UserSummary>)
    | OwnedTasks(rows: seq<OwnedTask>)
    | NoRoute

  datatype Response = Response(status: int, body: Body)

  /** What one request leaves behind: the response sent and the store afterwards. */
  datatype Outcome = Outcome(response: Response, db: Db)

  /** The authentication scheme prefix of an `Authorization` header. */
  const BearerPrefix := "Bearer "

  const NoTokenMessage := "Access denied. No token provided."
  const InvalidTokenMessage := "Invalid token."
  const AdminOnlyMessage := "Access denied. Admin only."
  const TaskNotFoundMessage := "Task not found"
  const TaskDeletedMessage := "Task deleted successfully"
  const ServerErrorMessage := "Server error"

  const NoToken := Response(401, Message(NoTokenMessage))
  const InvalidToken := Response(401, Message(InvalidTokenMessage))
  const AdminOnly := Response(403, Message(AdminOnlyMessage))
  const TaskNotFound := Response(404, Message(TaskNotFoundMessage))
  const ServerError := Response(500, Message(ServerErrorMessage))
}
