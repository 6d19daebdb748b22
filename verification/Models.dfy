/** The value records of backend/app/core/models.py. Timestamps and display
    fields that no decision reads are left out. */
module Models {
  import opened Prelude

  /** A UUID, by its canonical text. */
  type Uuid = string

  datatype PermissionLevel = NONE | READ | WRITE | DELETE | OWNER

  datatype AclEntry = AclEntry(
    documentId: string,
    principalId: Option<Uuid>,
    groupId: Option<Uuid>,
    permission: PermissionLevel,
    grantedVia: string,
    sourceContainerId: Option<string>,
    isDeny: bool,
    sourceType: string,
    tenantId: Uuid)

  datatype ContainerAclEntry = ContainerAclEntry(
    containerId: string,
    principalId: Option<Uuid>,
    groupId: Option<Uuid>,
    permission: PermissionLevel,
    isDeny: bool)

  datatype Group = Group(
    id: Uuid,
    tenantId: Uuid,
    email: Option<string>,
    sourceType: string,
    sourceId: string,
    memberPrincipalIds: seq<Uuid>,
    memberGroupIds: seq<Uuid>)

  datatype Document = Document(
    id: string,
    sourceType: string,
    tenantId: Uuid,
    parentIds: seq<string>)

  /** Sources whose shares bind to known users only and mirror their own permissions. */
  const MIRROR_BIND_SOURCES: set<string> := {"google_drive", "google_gmail"}

  /** Higher means more privilege. */
  function Rank(level: PermissionLevel): (r: nat)
    ensures r <= 4
  {
    match level
    case NONE => 0
    case READ => 1
    case WRITE => 2
    case DELETE => 3
    case OWNER => 4
  }

  /** No two levels share a rank, and they rise from no access to ownership. */
  lemma {:induction false} RankOrdersLevels(a: PermissionLevel, b: PermissionLevel)
    ensures Rank(a) == Rank(b) <==> a == b
    ensures Rank(NONE) < Rank(READ) < Rank(WRITE) < Rank(DELETE) < Rank(OWNER)
  {
  }
}
