# Atlassian organization admin crawler, modelled in Dafny

The repository is a set of small tools for the Atlassian organization admin
REST API (`https://api.atlassian.com/admin/v2`). This model covers three of them.

- **The paginated hierarchy crawler** (`hierarchy_sankey.py`).
  - It walks directories → groups → role assignments and group members.
  - Every list endpoint is read with `paginate`. That function follows `links.next` and stops quietly at the first response whose status is not 200.
  - Every group member with a usable account id adds one hierarchy record. The in-memory list is then rewritten to the snapshot file.
  - The member also adds one role-mapping row per group role name, then one `ORG-LEVEL` row per platform role of its resolved record. That record is the directory user with the member's id when there is one, and otherwise the member's own entry in the group listing.
  - A crawl starts from the snapshot when one exists. It never deduplicates.
- **The earlier, unpaginated crawler** (`final_minimal_header_hierarchy_sankey_app.py`).
  - It reads every endpoint once and ignores the status.
  - It never fetches group membership. Every usable group is paired with every usable directory user.
- **The endpoint browser of the API playground** (`app.py`).
  - It files the operations of the OpenAPI document under their tags, then labels and selects an endpoint.
  - It collects path and query parameters.
  - It builds the default URL, filling `{orgId}`, and substitutes the path parameters into the URL when the request is sent.

Modules:

- `Strings`: the Python string operations used, with their properties.
- `Api`: JSON items, responses, the server as a function from URL to response, and the endpoint URLs.
- `Records`: `extract_guid`, the two record kinds, and the crawl state `Progress`.
  - `Progress` holds `hierarchy_data`, `roles_mapping` and the snapshot file.
- `Pagination`: `paginate`.
- `Crawler`: the paginated crawl.
- `MinimalCrawler`: the unpaginated crawl.
- `Playground`: `app.py`.

How the model is built:

- Each loop of the source is a method with loop invariants. Its `ensures` ties the result to a specification function, which the lemmas then characterise.
- The crawl state is threaded through these methods as a value.

Two behaviours of the code are worth noting:

- The display name is not a real fallback chain. `user_email` already falls back to the user id, so `user_name` always equals `user_email` and the `name` and `nickname` fields are never used (`Records.UserName`).
- Nothing is deduplicated. Resuming from a snapshot appends a whole new traversal (`Crawler.ResumeRepeatsTraversal`). Platform-role rows repeat once per group a user is visited in (`MinimalCrawler.GroupsRowCount`).

A group role row carries the group's own id and name, and a platform-role row carries the id `ORG-LEVEL` and the name `Organization-wide`. A real group with id `ORG-LEVEL` and name `Organization-wide` would therefore produce rows that cannot be told apart from platform-role rows. The model keeps this ambiguity, as the code does.

## Model

| member | source | states |
|---|---|---|
| Records.ExtractGuid | hierarchy_sankey.py:36-39 | the id is absent exactly when the input is absent; a present id holds no colon |
| Records.ExtractGuidSuffix | final_minimal_header_hierarchy_sankey_app.py:15-18 | a colon-free id is kept as it is; otherwise the result is the suffix after the last colon, and an id ending in a colon gives `""` |
| Records.ValidMembers | hierarchy_sankey.py:134-137 | the users kept by the loop all have a usable normalised account id, and there are no more of them than in the listing |
| Records.ValidMembersMembers | hierarchy_sankey.py:134-137 | exactly the listed users with a usable id are kept: every kept user is from the listing, and every listed user with an id is kept |
| Records.ValidMembersAppend | hierarchy_sankey.py:134-137 | the skip works user by user and keeps order: the kept users of two listings are those of the first, then those of the second |
| Records.ValidMembersSnoc | hierarchy_sankey.py:134-137 | one more listed user is kept, at the end, exactly when it has a usable id |
| Records.RoleNamesOfNonEmpty | hierarchy_sankey.py:129 | non-empty role assignments give one name each, in order: the `roleKey` or `unknown-role` |
| Records.RoleNamesSkipsEmpty | hierarchy_sankey.py:129 | empty role-assignment records add no role name |
| Records.RoleNamesAppend | hierarchy_sankey.py:129 | role names are computed record by record and keep order: the names of two lists are those of the first, then those of the second |
| Records.RoleNamesOne | hierarchy_sankey.py:129 | a single record gives no name when it is empty, and otherwise its `roleKey`, or `unknown-role` when that is missing |
| Records.EmptyRolesHaveNoNames | final_minimal_header_hierarchy_sankey_app.py:103 | a listing made only of empty records gives no role names |
| Records.UserEmail | hierarchy_sankey.py:141 | the email when it is non-empty, and exactly the user id when the email is missing or empty; never empty for a non-empty id |
| Records.UserName | hierarchy_sankey.py:142-147 | for a non-empty user id the display name equals the email, so `name` and `nickname` are never reached |
| Records.Entry | hierarchy_sankey.py:150-160 | the record carries the directory id and name, the group id and name and the user id; its email is the email-or-id of the resolved record; it carries the joined role names and the joined platform roles; and its name equals its non-empty email |
| Records.GroupRoleRowsAt | hierarchy_sankey.py:165-173 | one row per role name, the i-th carrying the i-th name with the group and the user |
| Records.OrgRoleRowsAt | hierarchy_sankey.py:176-184 | one row per platform role, the i-th carrying that role with group id `ORG-LEVEL` and name `Organization-wide` |
| Records.MemberRowsShape | hierarchy_sankey.py:164-184 | a member's rows are its group-role rows, then its ORG-LEVEL rows |
| Records.MemberRowsLength | final_minimal_header_hierarchy_sankey_app.py:133-151 | a member adds as many rows as the group's role names plus its platform roles |
| Records.Progress.After | hierarchy_sankey.py:161-162 | appending extends both lists at their ends; after a record the snapshot holds the whole list, and with no record it is unchanged |
| Records.Start | hierarchy_sankey.py:93-99 | a run starts with the snapshot's records, in sync with the file, or empty when there is no file; the role list starts empty |
| Records.AfterThen | hierarchy_sankey.py:161-184 | appending two stretches one after the other equals appending both at once |
| Records.AfterKeepsInSync | hierarchy_sankey.py:161-162 | once the file holds the list, it keeps holding it whatever is appended |
| Records.ThenValid | hierarchy_sankey.py:150-184 | concatenating well-formed outputs gives a well-formed output |
| Records.EmitValid | hierarchy_sankey.py:150-184 | a member with a usable id in a group with usable ids gives a well-formed record and rows |
| Records.AfterNothing | hierarchy_sankey.py:124-125 | a skipped entry leaves the state unchanged |
| Records.AppendGroupRoleRows | hierarchy_sankey.py:165-173 | the group-roles loop appends exactly the group-role rows to `roles_mapping` |
| Records.AppendOrgRoleRows | hierarchy_sankey.py:176-184 | the platform-roles loop appends exactly the ORG-LEVEL rows |
| Records.EmitMember | hierarchy_sankey.py:150-184 | visiting a member appends its record, rewrites the snapshot and appends its rows |
| Pagination.BaseOfShape | hierarchy_sankey.py:76 | `url.split("?")[0]` is the longest `?`-free prefix of the URL |
| Pagination.NextUrl | hierarchy_sankey.py:71-83 | the loop goes on exactly when `links.next` is present and non-empty |
| Pagination.NextUrlShape | hierarchy_sankey.py:72-80 | an absolute link is followed verbatim; a link starting with `?` is appended to the base; every relative link stays on the current base and ends with the link; a bare cursor becomes `?cursor=<link>` right after the base |
| Pagination.OnBase | hierarchy_sankey.py:76-80 | a URL built as base, `?`, tail has that base and ends with the tail |
| Pagination.Paginate | hierarchy_sankey.py:57-84 | the loop returns exactly the concatenated pages of the specification `Collect` |
| Pagination.CollectStep | hierarchy_sankey.py:65-83 | a successful page contributes its `data` (default `[]`), followed by whatever its next URL yields |
| Pagination.CollectEnough | hierarchy_sankey.py:59 | once pagination ends by itself, more requests change nothing |
| Pagination.CollectGrows | hierarchy_sankey.py:58-67 | one more request only extends the result, and nothing collected is lost |
| Pagination.StopsAtFailure | hierarchy_sankey.py:60-64 | a failed first response yields nothing; a page whose successor fails yields only its own items |
| Crawler.UserMapKeys | hierarchy_sankey.py:119 | the user lookup has a key exactly for the normalised account ids present |
| Crawler.UserMapLastWins | hierarchy_sankey.py:119 | a key maps to the last user carrying it |
| Crawler.MemberResolution | hierarchy_sankey.py:139 | a member resolves to the last directory user with its id, or to its own stub when there is none |
| Crawler.VisitMembers | hierarchy_sankey.py:134-184 | the members loop appends exactly `MembersOutput` |
| Crawler.VisitGroup | hierarchy_sankey.py:121-184 | one group appends exactly `GroupOutput`: nothing without a usable id, else its members against its role names |
| Crawler.VisitGroups | hierarchy_sankey.py:121-184 | the groups loop appends exactly `GroupsOutput` |
| Crawler.VisitDirectory | hierarchy_sankey.py:108-184 | one directory appends exactly `DirectoryOutput` |
| Crawler.Crawl | hierarchy_sankey.py:93-184 | a crawl ends in the start state followed by `CrawlOutput` |
| Crawler.MembersRecords | hierarchy_sankey.py:134-161 | one record per member with a usable id, in member order, built from the member's resolved directory record |
| Crawler.MembersRowCount | hierarchy_sankey.py:164-184 | a group with r role names and m usable members adds m·r group rows plus their resolved platform roles |
| Crawler.MembersValid | hierarchy_sankey.py:134-184 | a group's output is well formed |
| Crawler.GroupsValid | hierarchy_sankey.py:121-184 | a directory's output is well formed |
| Crawler.DirectoriesValid | hierarchy_sankey.py:108-184 | the output over all directories is well formed |
| Crawler.CrawlRecordsValid | hierarchy_sankey.py:108-184 | every record and row of a crawl has non-empty, colon-free ids and a name equal to its non-empty email |
| Crawler.ResumeRepeatsTraversal | hierarchy_sankey.py:96-99 | a second run from the first run's snapshot appends the same traversal again, with no deduplication |
| MinimalCrawler.VisitPairs | final_minimal_header_hierarchy_sankey_app.py:105-151 | the users loop of one group appends exactly `PairsOutput` |
| MinimalCrawler.VisitGroup | final_minimal_header_hierarchy_sankey_app.py:85-151 | one group appends exactly `GroupOutput` |
| MinimalCrawler.VisitGroups | final_minimal_header_hierarchy_sankey_app.py:85-151 | the groups loop appends exactly `GroupsOutput` |
| MinimalCrawler.VisitDirectory | final_minimal_header_hierarchy_sankey_app.py:58-151 | one directory appends exactly `DirectoryOutput` |
| MinimalCrawler.Crawl | final_minimal_header_hierarchy_sankey_app.py:39-151 | a crawl ends in the start state followed by `CrawlOutput` |
| MinimalCrawler.ValidGroups | final_minimal_header_hierarchy_sankey_app.py:85-89 | the groups kept by the loop all have a usable normalised id |
| MinimalCrawler.ValidGroupsMembers | final_minimal_header_hierarchy_sankey_app.py:85-89 | exactly the listed groups with a usable id are kept: every kept group is from the listing, and every listed group with an id is kept |
| MinimalCrawler.ValidGroupsAppend | final_minimal_header_hierarchy_sankey_app.py:85-89 | the skip works group by group and keeps order: the kept groups of two listings are those of the first, then those of the second |
| MinimalCrawler.ValidGroupsSnoc | final_minimal_header_hierarchy_sankey_app.py:85-89 | one more listed group is kept, at the end, exactly when it has a usable id |
| MinimalCrawler.PairsRecords | final_minimal_header_hierarchy_sankey_app.py:105-131 | within a group, one record per usable directory user, in listing order, built from that user's own record |
| MinimalCrawler.GroupsRecords | final_minimal_header_hierarchy_sankey_app.py:85-131 | a directory yields (usable groups) × (usable users) records, group-major: the record at i·m + j pairs the i-th group with the j-th user |
| MinimalCrawler.GroupsRowCount | final_minimal_header_hierarchy_sankey_app.py:85-151 | a directory's rows number m × (role names over its usable groups) plus (usable groups) × (platform roles of its m users), so platform rows repeat once per group |
| MinimalCrawler.PairsRowCount | final_minimal_header_hierarchy_sankey_app.py:105-151 | a group with r role names adds m·r group rows plus the m users' platform roles |
| MinimalCrawler.NoDirectoriesNoRecords | final_minimal_header_hierarchy_sankey_app.py:55-56 | an empty directory list adds nothing |
| MinimalCrawler.ReadVersusPaginate | final_minimal_header_hierarchy_sankey_app.py:48-49 | the single read keeps a failed response's items where `paginate` keeps none; on a lone successful page the two agree |
| MinimalCrawler.CrawlRecordsValid | final_minimal_header_hierarchy_sankey_app.py:58-151 | every record and row of a crawl is well formed |
| Playground.Dict.Put | app.py:30-31 | assignment keeps the dict well formed, sets the entry, and keeps the existing keys in order |
| Playground.ExtendMembers | app.py:30-31 | the keys after assigning names hold each of them once, after the earlier keys, in first-assignment order |
| Playground.EndpointOf | app.py:32-36 | the endpoint keeps the path and the operation object and upper-cases the method |
| Playground.FileEndpoint | app.py:29-36 | the tag loop of one operation files it under each of its tags (`FileAll`) |
| Playground.FilePath | app.py:28-36 | the method loop of one path files each of its operations in order |
| Playground.BuildTagIndex | app.py:26-36 | the nested loops build exactly `TagIndex` of the document |
| Playground.FileAllKeys | app.py:30-31 | filing adds the new tag names as keys in order and keeps the dict well formed |
| Playground.FileList | app.py:30-36 | filing under a tag appends to that tag's list and to no other |
| Playground.FileAllList | app.py:29-36 | filing appends the endpoint to a tag's list once per declaration of that tag |
| Playground.IndexFromEffect | app.py:27-36 | the index gains each tag's declaring endpoints in document order, and keys in first-declaration order |
| Playground.AllTagsMembers | app.py:29 | a name is among the declared tags exactly when some endpoint declares it |
| Playground.TagIndexMeaning | app.py:26-36 | the keys are the declared tags, each once, in first-declaration order; a name is a key exactly when some operation declares it; a tag lists exactly its declaring endpoints, in document order |
| Playground.EndpointsComplete | app.py:27-36 | every operation of every path becomes an endpoint |
| Playground.EndpointsSound | app.py:27-36 | every endpoint comes from some operation of the document |
| Playground.Select | app.py:40-42 | the selection is the first endpoint carrying the chosen label, and there is none exactly when the label is not among the options |
| Playground.CollectParams | app.py:47-61 | the parameter loop builds exactly `PathParams` and `QueryParams` |
| Playground.FillKeys | app.py:55-61 | a parameter dict lists the names of the recorded parameters, each once, in first-occurrence order |
| Playground.KeptNamesMembers | app.py:55-61 | a name is recorded exactly when some parameter of that kind, and non-empty where required, has it |
| Playground.FillValues | app.py:57-61 | a recorded name's value is the one typed for the last parameter of that name |
| Playground.FillMeaning | app.py:50-61 | the keys, membership and last-wins values of a parameter dict |
| Playground.ParamsMeaning | app.py:55-61 | every path parameter is recorded even when empty; a query parameter is recorded only with a non-empty value, so no query value is empty |
| Playground.DefaultUrlMeaning | app.py:74-77 | without an org id, or without a placeholder, the URL is the API root plus the template; with an id, the first `{orgId}` gets the id and so does every later one; a single `{orgId}` just gets the id |
| Playground.DefaultUrlFirstPlaceholder | app.py:74-77 | with an org id, the first `{orgId}` of the template becomes the id and every later `{orgId}` is replaced as well |
| Playground.ReplaceHit | app.py:77 | replacing the one placeholder of a template puts the value in its place |
| Playground.ReplaceMiss | app.py:96 | replacing another parameter's placeholder leaves a one-placeholder template as it is |
| Playground.Substitute | app.py:95-96 | the substitution loop computes `SubstituteAll` over the path parameters in insertion order |
| Playground.SubstituteNoPlaceholder | app.py:95-96 | a URL without `{` passes through unchanged |
| Playground.SubstituteOne | app.py:95-96 | with brace-free names and values, a template with one placeholder gets that parameter's value when it was collected, and is left alone otherwise |
| Strings.Upper | app.py:34 | `method.upper()` keeps the length and upper-cases each character |
| Strings.ReplaceAbsent | app.py:77 | replacing a pattern that does not occur changes nothing |
| Strings.ReplaceSkips | app.py:96 | text without the pattern's first character passes through a replacement untouched |

## Left out

- The Streamlit user interface is not modelled: page layout, widgets, messages, debug output, download buttons, the data frames and the Sankey charts. The choices and typed values it supplies are parameters.
- Real HTTP is not modelled. The server is a function from URL to response, and authentication headers do not appear.
  - This covers `load_openapi_spec` (app.py:17-21): the OpenAPI document is an input.
  - This covers `send_request` (app.py:82-91): only the URL it would be sent to is modelled.
- The delays between requests (`time.sleep`) are left out: they change timing only.
- The snapshot file is an optional value that each save overwrites with the whole list. Unreadable or invalid snapshot files and write failures are left out.
- Only string-valued JSON fields are modelled. Per record these are the string fields plus the optional `platformRoles` list. Other fields are not represented.
- A JSON `null` is modelled as an absent field. The source does not treat it that way, and the model does not capture what follows:
  - a `null` `roleKey` becomes `None` in the role names, and joining them raises (hierarchy_sankey.py:129, 158);
  - a `null` `platformRoles` raises when joined or iterated (hierarchy_sankey.py:148, 176);
  - a `null` `data` or `links` raises in `paginate` (hierarchy_sankey.py:66-67, 71);
  - a `null` directory or group `name` is copied into the record as `None` instead of the default name (hierarchy_sankey.py:110, 123).
- Records.RoleNames: a role-assignment record whose only fields are not strings counts as empty and is skipped. The source keeps every non-empty record, so it would add `unknown-role` for it (hierarchy_sankey.py:129).
- A path-level entry of the OpenAPI document that is not an operation, such as `parameters` or `summary`, is not modelled. The source calls `get` on it and raises (app.py:27-29); the model's path items hold operations only.
- A response whose body is not JSON, which raises in the source, is left out. Every body is taken as already decoded.
- The request body editor (app.py:63-71) is not part of this model. It parses JSON text typed by the user.
- Parameter descriptions (app.py:53) are left out: they are shown only as field labels.
- A typed value exists for every parameter. The source asks only for path and query parameters, and the model ignores the values of the others.
- Selecting a tag when the document declares none is not modelled. Streamlit would pass `None` to the lookup.
- Duplicate keys of the OpenAPI document are not excluded. Paths and methods are sequences, which JSON objects with unique keys are a special case of.
- Pagination.Paginate: at most `fuel` requests are issued. The source loops as long as next links keep coming, so the model does not claim that pagination ends. `Pagination.CollectEnough` shows that more fuel changes nothing once it has ended.
- Strings.Upper: only ASCII letters are upper-cased. Python's `str.upper` also maps other letters, and HTTP method names are ASCII.
- Playground.SubstituteOne: proved only for templates with a single placeholder and brace-free names and values. With several placeholders, a value containing `{` can create a placeholder that a later replacement fills.
