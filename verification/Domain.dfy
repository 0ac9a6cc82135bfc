/** The rows, enums and tables that the copilot services read and write. */
module Domain {

  datatype Option<+T> = None | Some(value: T)

  /** Row ids come from an autoincrement column, so a stored id is at least 1; the code treats 0 as absent. */
  type Id = nat

  datatype OpportunityType = Dev | Qa | Design | Ai | DataScience

  datatype RequestStatus = New | Approved | Rejected | Seeking | Canceled | Fulfilled

  datatype OpportunityStatus = Active | Completed | Canceled

  datatype ApplicationStatus = Pending | Invited | Accepted | Canceled

  datatype MemberRole =
    | Manager | Observer | Customer | Copilot | AccountManager | ProgramManager
    | AccountExecutive | SolutionArchitect | ProjectManager

  datatype Skill = Skill(id: string, name: string)

  /** A JSON value in request data, as far as the request DTO lets one in.
      `text` is what the `->>` operator yields for the value. */
  datatype Json =
    | JsonNull
    | JsonNumber(text: string)
    | JsonString(text: string)
    | JsonSkills(text: string, skills: seq<Skill>)

  /** The JSON envelope of a request. `projectType` is None when the key is missing or null;
      every key other than `projectType` and `projectId` is in `fields`. */
  datatype RequestData = RequestData(
    projectType: Option<OpportunityType>,
    projectId: Option<Id>,
    fields: map<string, Json>)

  datatype Project = Project(name: string, deleted: bool)

  datatype Request = Request(
    projectId: Option<Id>,
    status: RequestStatus,
    data: RequestData,
    deleted: bool,
    createdAt: int,
    updatedAt: int)

  datatype Opportunity = Opportunity(
    projectId: Option<Id>,
    requestId: Option<Id>,
    status: OpportunityStatus,
    kind: OpportunityType,
    deleted: bool,
    createdAt: int,
    updatedAt: int)

  datatype Application = Application(
    opportunityId: Id,
    userId: nat,
    notes: string,
    status: ApplicationStatus,
    deleted: bool,
    createdAt: int,
    updatedAt: int)

  datatype Member = Member(projectId: Id, userId: nat, role: MemberRole, deleted: bool)

  type Requests = map<Id, Request>
  type Opportunities = map<Id, Opportunity>
  type Applications = map<Id, Application>
  type Members = map<Id, Member>

  /** One committed database state. A `...Seq` field is the next value of that table's id sequence. */
  datatype Tables = Tables(
    projects: map<Id, Project>,
    requests: Requests,
    opportunities: Opportunities,
    applications: Applications,
    members: Members,
    requestSeq: Id,
    opportunitySeq: Id,
    applicationSeq: Id,
    memberSeq: Id)

  /** The failures the services throw, one constructor for each message. */
  datatype Error =
    | PayloadProjectMismatch
    | ProjectNotFound
    | RequestNotFound
    | DuplicateRequestType
    | RequestImmutable
    | InvalidType
    | ActiveOpportunityExists
    | OpportunityNotFound
    | OpportunityNotActive
    | OpportunityWithoutProject
    | NoSuchApplication
    | ApplicationAlreadyAccepted

  datatype Reply = Done(id: Id) | Failed(error: Error)

  datatype Outcome = Outcome(tables: Tables, reply: Reply)
}
