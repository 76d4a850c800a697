/** Vocabulary shared by every policy model: the six IAM permission strings,
    the five policy classes, the attribute keys and values drawn for users and
    resources, and their printed forms. */
module Domain {

  datatype Option<T> = None | Some(value: T)

  /** The permissions in `all_permissions`. */
  datatype Permission =
    | PassRole | RunInstances | PutObject
    | AttachRolePolicy | UpdateRole | UpdateAssumeRolePolicy

  const AllPermissions: seq<Permission> :=
    [PassRole, RunInstances, PutObject, AttachRolePolicy, UpdateRole, UpdateAssumeRolePolicy]

  function PermissionName(p: Permission): string
  {
    match p
    case PassRole => "iam:PassRole"
    case RunInstances => "ec2:RunInstances"
    case PutObject => "s3:PutObject"
    case AttachRolePolicy => "iam:AttachRolePolicy"
    case UpdateRole => "iam:UpdateRole"
    case UpdateAssumeRolePolicy => "iam:UpdateAssumeRolePolicy"
  }

  /** The policy classes `['IAM', 'EC2', 'S3', 'KMS', 'RDS']`. */
  datatype PolicyClass = IAM | EC2 | S3 | KMS | RDS

  const PolicyClasses: seq<PolicyClass> := [IAM, EC2, S3, KMS, RDS]

  lemma ClassListed(c: PolicyClass)
    ensures c in PolicyClasses
  {
  }

  function PolicyClassName(c: PolicyClass): string
  {
    match c
    case IAM => "IAM"
    case EC2 => "EC2"
    case S3 => "S3"
    case KMS => "KMS"
    case RDS => "RDS"
  }

  /** User attribute keys and values (`UserType`, `AuthType`). */
  datatype UserKey = UserType | AuthType
  datatype UserValue = Admin | PlainUser | Service | Password | MFA | Federated

  function UserKeyName(k: UserKey): string
  {
    match k
    case UserType => "UserType"
    case AuthType => "AuthType"
  }

  function UserValueName(v: UserValue): string
  {
    match v
    case Admin => "Admin"
    case PlainUser => "User"
    case Service => "Service"
    case Password => "Password"
    case MFA => "MFA"
    case Federated => "Federated"
  }

  /** The attribute record drawn for one user; `Items` lists it in dict order. */
  datatype UserData = UserData(userType: UserValue, authType: UserValue)
  {
    /** The values each key is drawn from. */
    predicate InRange()
    {
      && userType in {Admin, PlainUser, Service}
      && authType in {Password, MFA, Federated}
    }

    function Items(): (items: seq<(UserKey, UserValue)>)
      ensures |items| == 2
    {
      [(UserType, userType), (AuthType, authType)]
    }
  }

  /** Resource attribute keys and values
      (`LeastPrivilegePolicy`, `ResourceType`, `IsCreateModify`). */
  datatype ResKey = LeastPrivilegePolicy | ResourceType | IsCreateModify
  datatype ResValue = Strict | Relaxed | EC2Type | S3Type | KMSType | RDSType | TrueValue | FalseValue

  function ResKeyName(k: ResKey): string
  {
    match k
    case LeastPrivilegePolicy => "LeastPrivilegePolicy"
    case ResourceType => "ResourceType"
    case IsCreateModify => "IsCreateModify"
  }

  function ResValueName(v: ResValue): string
  {
    match v
    case Strict => "Strict"
    case Relaxed => "Relaxed"
    case EC2Type => "EC2"
    case S3Type => "S3"
    case KMSType => "KMS"
    case RDSType => "RDS"
    case TrueValue => "True"
    case FalseValue => "False"
  }

  /** The attribute record drawn for one resource; `Items` lists it in dict order. */
  datatype ResData = ResData(leastPrivilege: ResValue, resourceType: ResValue, isCreateModify: ResValue)
  {
    predicate InRange()
    {
      && leastPrivilege in {Strict, Relaxed}
      && resourceType in {EC2Type, S3Type, KMSType, RDSType}
      && isCreateModify in {TrueValue, FalseValue}
    }

    function Items(): (items: seq<(ResKey, ResValue)>)
      ensures |items| == 3
    {
      [(LeastPrivilegePolicy, leastPrivilege), (ResourceType, resourceType), (IsCreateModify, isCreateModify)]
    }
  }
}
