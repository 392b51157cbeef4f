/** The list logic of rbac-frontend/src/pages/ActivityLogs.jsx: the category
    filter over the fetched log entries and the badge colour and icon of an
    action. */
module ActivityLogsPage {
  import opened Common
  import ActivityService

  type LogEntry = ActivityService.LogEntry

  /** The predicate of `filteredLogs` for the selected category. */
  predicate InCategory(action: string, filter: string) {
    if filter == "all" then true
    else if filter == "login" then Contains(action, "LOGIN") || Contains(action, "SIGNUP")
    else if filter == "articles" then Contains(action, "ARTICLE")
    else if filter == "users" then
      Contains(action, "USER") && !Contains(action, "LOGIN") && !Contains(action, "SIGNUP")
    else true
  }

  function InCategoryOf(filter: string): LogEntry -> bool {
    (e: LogEntry) => InCategory(e.action, filter)
  }

  /** `filteredLogs`: the entries of the category, in their order. */
  function FilteredLogs(logs: seq<LogEntry>, filter: string): (r: seq<LogEntry>)
    ensures forall e :: e in r <==> e in logs && InCategory(e.action, filter)
    ensures forall e: LogEntry :: InCategory(e.action, filter) ==> multiset(r)[e] == multiset(logs)[e]
    ensures IsSubsequence(r, logs)
  {
    Filter(logs, InCategoryOf(filter))
  }

  /** 'all', and any value other than the three categories, keep every entry. */
  lemma {:induction false} UnknownFilterKeepsAll(logs: seq<LogEntry>, filter: string)
    requires filter != "login" && filter != "articles" && filter != "users"
    ensures FilteredLogs(logs, filter) == logs
  {
    FilterKeepsAll(logs, InCategoryOf(filter));
  }

  /** No entry is both a login entry and a user entry. */
  lemma LoginAndUsersDisjoint(logs: seq<LogEntry>)
    ensures forall e :: e in FilteredLogs(logs, "login") ==> e !in FilteredLogs(logs, "users")
  {
  }

  const Red := "bg-red-100 text-red-800 border-red-200"
  const Green := "bg-green-100 text-green-800 border-green-200"
  const Blue := "bg-blue-100 text-blue-800 border-blue-200"
  const Purple := "bg-purple-100 text-purple-800 border-purple-200"
  const Grey := "bg-gray-100 text-gray-800 border-gray-200"

  /** The keywords in order of precedence, and the colour of each. */
  const Keywords: seq<string> := ["DELETE", "CREATE", "UPDATE", "LOGIN"]
  const KeywordColors: seq<string> := [Red, Green, Blue, Purple]

  function ContainsKeyword(action: string): string -> bool { (k: string) => Contains(action, k) }

  /** getActionColor: the colour of the first keyword of the precedence list
      that the action contains, grey when it contains none. */
  function ActionColor(action: string): (c: string)
    ensures var i := FindIndex(Keywords, ContainsKeyword(action));
            c == if i == -1 then Grey else KeywordColors[i]
  {
    if Contains(action, "DELETE") then Red
    else if Contains(action, "CREATE") then Green
    else if Contains(action, "UPDATE") then Blue
    else if Contains(action, "LOGIN") then Purple
    else Grey
  }

  /** The `icons` object of getActionIcon. */
  function Icons(): map<string, string> {
    map["USER_LOGIN" := "\U{1F513}",
        "USER_SIGNUP" := "\U{2728}",
        "VIEW_ARTICLES" := "\U{1F441}\U{FE0F}",
        "CREATE_ARTICLE" := "\U{1F4DD}",
        "DELETE_ARTICLE" := "\U{1F5D1}\U{FE0F}",
        "UPDATE_USER" := "\U{270F}\U{FE0F}",
        "DELETE_USER" := "\U{274C}"]
  }

  const DefaultIcon := "\U{1F4CC}"

  /** getActionIcon: `icons[action] || '📌'`. Every mapped icon is non-empty,
      so the default appears exactly for the actions without an icon. */
  function ActionIcon(action: string): (icon: string)
    ensures action in Icons() ==> icon == Icons()[action]
    ensures icon == DefaultIcon <==> action !in Icons()
  {
    if action in Icons() && Icons()[action] != "" then Icons()[action] else DefaultIcon
  }
}
