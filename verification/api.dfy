/** The identity-and-access REST API as the crawlers see it: a JSON record
    is a string-keyed object, a response carries a status code and a body
    with a `data` list and an optional `links.next` continuation, and the
    server is a deterministic function from request URL to response. */
module Api {
  import opened Strings

  datatype Option<+T> = None | Some(value: T)

  /** Python truthiness of an optional string (`if x`, `x or y`):
      absent (`None`) and `""` are false. */
  predicate Truthy(x: Option<string>)
  {
    x.Some? && x.value != ""
  }

  /** `x or fallback` for an optional string */
  function Or(x: Option<string>, fallback: string): (r: string)
    ensures Truthy(x) ==> r == x.value
    ensures !Truthy(x) ==> r == fallback
  {
    if Truthy(x) then x.value else fallback
  }

  /** One JSON object of a `data` list: the string-valued keys, and the
      `platformRoles` list of strings where the object has one. */
  datatype Item = Item(text: map<string, string>, platformRoles: Option<seq<string>>)
  {
    /** Python truthiness of a dict: false exactly when it has no key. */
    predicate IsEmpty()
    {
      text == map[] && platformRoles.None?
    }

    /** `item.get(key)` */
    function Get(key: string): Option<string>
    {
      if key in text then Some(text[key]) else None
    }

    /** `item.get(key, default)` */
    function GetOr(key: string, default: string): string
    {
      if key in text then text[key] else default
    }

    /** `item.get("platformRoles", [])` */
    function PlatformRoles(): seq<string>
    {
      if platformRoles.Some? then platformRoles.value else []
    }
  }

  /** A decoded response body: `data` and `links.next`, each possibly absent. */
  datatype Body = Body(data: Option<seq<Item>>, next: Option<string>)
  {
    /** `body.get("data", [])` */
    function Data(): seq<Item>
    {
      if data.Some? then data.value else []
    }
  }

  datatype Response = Response(status: int, body: Body)

  /** The server: every GET of a URL answers with one response. */
  type Server = string -> Response

  const BASE_URL := "https://api.atlassian.com/admin/v2/orgs"

  function DirectoriesUrl(orgId: string): string
  {
    BASE_URL + "/" + orgId + "/directories"
  }

  function GroupsUrl(orgId: string, dirId: string): string
  {
    DirectoriesUrl(orgId) + "/" + dirId + "/groups"
  }

  function UsersUrl(orgId: string, dirId: string): string
  {
    DirectoriesUrl(orgId) + "/" + dirId + "/users"
  }

  function RoleAssignmentsUrl(orgId: string, dirId: string, grpId: string): string
  {
    GroupsUrl(orgId, dirId) + "/" + grpId + "/role-assignments"
  }

  function GroupUsersUrl(orgId: string, dirId: string, grpId: string): string
  {
    GroupsUrl(orgId, dirId) + "/" + grpId + "/users"
  }
}
