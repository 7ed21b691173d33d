/** The entities of the helpdesk console (src/types/index.ts), plus the mail
    records that src/services/EmailService.ts and the e-mail components use.
    Timestamps are milliseconds since the epoch; the ISO and locale renderings
    of the source are not modelled. */
module Domain {
  import opened Common

  type Timestamp = nat

  datatype Role = Admin | Technician | EndUser
  {
    /** The literal the source stores for the role. */
    function Name(): string
    {
      match this
      case Admin => "admin"
      case Technician => "technician"
      case EndUser => "user"
    }
  }

  datatype Status = Open | InProgress | Waiting | Resolved | Closed
  {
    function Name(): string
    {
      match this
      case Open => "open"
      case InProgress => "in-progress"
      case Waiting => "waiting"
      case Resolved => "resolved"
      case Closed => "closed"
    }
  }

  datatype Priority = Low | Medium | High | Critical
  {
    function Name(): string
    {
      match this
      case Low => "low"
      case Medium => "medium"
      case High => "high"
      case Critical => "critical"
    }
  }

  datatype User = User(
    id: string,
    email: string,
    name: string,
    role: Role,
    department: Option<string>,
    supportAreas: seq<string>,
    isActive: bool,
    isOnline: bool,
    createdAt: Timestamp,
    lastLogin: Option<Timestamp>,
    failedAttempts: nat,
    blockedUntil: Option<Timestamp>,
    whitelistEntry: Option<bool>)

  datatype SupportArea = SupportArea(
    id: string,
    name: string,
    description: string,
    keywords: seq<string>,
    priority: int)

  datatype Department = Department(
    id: string,
    name: string,
    description: string,
    color: string,
    supportAreas: seq<SupportArea>,
    isActive: bool,
    createdAt: Timestamp)

  datatype Attachment = Attachment(id: string, fileName: string, fileSize: nat, fileType: string, uploadedBy: string)

  datatype Comment = Comment(id: string, ticketId: string, userId: string, content: string, isInternal: bool)

  /** `autoAssignAttempts` and `requiresAssignment` are declared as required,
      but tickets created from the form carry neither, so both are optional
      here, as they are at run time. */
  datatype Ticket = Ticket(
    id: string,
    title: string,
    description: string,
    status: Status,
    priority: Priority,
    category: string,
    assignedTechnicians: seq<string>,
    autoAssignAttempts: Option<nat>,
    createdBy: string,
    createdAt: Timestamp,
    updatedAt: Timestamp,
    resolvedAt: Option<Timestamp>,
    timeSpent: nat,
    tags: seq<string>,
    attachments: seq<Attachment>,
    comments: seq<Comment>,
    autoAssigned: bool,
    requiresAssignment: Option<bool>)

  datatype Article = Article(
    id: string,
    title: string,
    content: string,
    category: string,
    tags: seq<string>,
    createdBy: string,
    createdAt: Timestamp,
    updatedAt: Timestamp,
    views: nat,
    helpful: nat,
    notHelpful: nat,
    isPublic: bool)

  datatype AIFeature = AIFeature(name: string, enabled: bool)

  datatype AIProvider = AIProvider(id: string, name: string, enabled: bool, features: seq<AIFeature>)

  /** A value held in one field of one section of the system configuration. */
  datatype ConfigValue = Text(text: string) | Number(number: int) | Flag(flag: bool) | Providers(providers: seq<AIProvider>)

  /** The configuration is a JavaScript object of sections, each an object of
      fields; the settings screen addresses both by name. */
  type Section = map<string, ConfigValue>
  type Config = map<string, Section>

  function DefaultFeatures(): seq<AIFeature>
  {
    [AIFeature("autoSuggestSolutions", false), AIFeature("autoCategorizTickets", false), AIFeature("chatbot", false)]
  }

  /** The configuration the store starts with. */
  function DefaultConfig(): Config
  {
    map[
      "general" := map[
        "companyName" := Text("TechSupport Pro"),
        "supportEmail" := Text("support@company.com"),
        "timezone" := Text("Europe/Madrid"),
        "language" := Text("es"),
        "dateFormat" := Text("dd/MM/yyyy")],
      "security" := map[
        "maxFailedAttempts" := Number(3),
        "lockoutDuration" := Number(15),
        "sessionTimeout" := Number(480),
        "requireWhitelist" := Flag(false),
        "strongPasswordPolicy" := Flag(true)],
      "tickets" := map[
        "autoAssignEnabled" := Flag(true),
        "allowSelfAssign" := Flag(true),
        "requireApproval" := Flag(false),
        "defaultPriority" := Text("medium"),
        "autoCloseAfterDays" := Number(30)],
      "notifications" := map[
        "emailEnabled" := Flag(true),
        "smtpServer" := Text("smtp.company.com"),
        "smtpPort" := Number(587),
        "smtpUsername" := Text("support@company.com"),
        "smtpPassword" := Text(""),
        "newTicketNotification" := Flag(true),
        "ticketUpdatedNotification" := Flag(true),
        "assignmentNotification" := Flag(true)],
      "ai" := map[
        "enabled" := Flag(false),
        "providers" := Providers([
          AIProvider("openai", "OpenAI GPT", false, DefaultFeatures()),
          AIProvider("claude", "Anthropic Claude", false, DefaultFeatures())]),
        "autoSuggestSolutions" := Flag(false),
        "autoCategorizTickets" := Flag(false),
        "chatbotEnabled" := Flag(false)]
    ]
  }

  // ---------------------------------------------------------------------------
  // Mail records (used by EmailService and the e-mail components; they are not
  // declared in src/types/index.ts, so their fields follow their use)
  // ---------------------------------------------------------------------------

  datatype EmailAttachment = EmailAttachment(id: string, filename: string, contentType: string, size: nat)

  datatype ImportedEmail = ImportedEmail(
    id: string,
    messageId: string,
    accountId: string,
    from: string,
    to: seq<string>,
    cc: seq<string>,
    subject: string,
    body: string,
    bodyHtml: Option<string>,
    receivedAt: Timestamp,
    importedAt: Timestamp,
    processed: bool,
    attachments: seq<EmailAttachment>,
    isReply: bool,
    inReplyTo: Option<string>,
    references: seq<string>)

  /** `provider` is kept as text: an account read back from storage may name a
      protocol the service does not support. */
  datatype EmailAccount = EmailAccount(
    id: string,
    name: string,
    email: string,
    provider: string,
    server: string,
    port: int,
    username: string,
    password: string,
    useSSL: bool,
    isActive: bool,
    syncInterval: int,
    autoCreateTickets: bool,
    defaultPriority: Priority,
    defaultCategory: string)

  datatype EmailCondition = EmailCondition(field: string, operator: string, value: string, caseSensitive: bool)

  datatype EmailAction = EmailAction(kind: string, value: string)

  // ---------------------------------------------------------------------------
  // Partial updates: `{ ...record, ...updates }` with `updates: Partial<T>`
  // ---------------------------------------------------------------------------

  function Pick<T>(update: Option<T>, current: T): T
  {
    if update.Some? then update.value else current
  }

  function PickSome<T>(update: Option<T>, current: Option<T>): Option<T>
  {
    if update.Some? then update else current
  }

  datatype TicketPatch = TicketPatch(
    id: Option<string>,
    title: Option<string>,
    description: Option<string>,
    status: Option<Status>,
    priority: Option<Priority>,
    category: Option<string>,
    assignedTechnicians: Option<seq<string>>,
    autoAssignAttempts: Option<nat>,
    createdBy: Option<string>,
    resolvedAt: Option<Timestamp>,
    timeSpent: Option<nat>,
    tags: Option<seq<string>>,
    attachments: Option<seq<Attachment>>,
    comments: Option<seq<Comment>>,
    autoAssigned: Option<bool>,
    requiresAssignment: Option<bool>)

  const NoTicketChanges := TicketPatch(None, None, None, None, None, None, None, None, None, None, None, None, None, None, None, None)

  /** `{ ...t, ...p }`: each field the patch carries replaces the ticket's. */
  function ApplyTicketPatch(t: Ticket, p: TicketPatch): Ticket
  {
    Ticket(
      Pick(p.id, t.id), Pick(p.title, t.title), Pick(p.description, t.description),
      Pick(p.status, t.status), Pick(p.priority, t.priority), Pick(p.category, t.category),
      Pick(p.assignedTechnicians, t.assignedTechnicians), PickSome(p.autoAssignAttempts, t.autoAssignAttempts),
      Pick(p.createdBy, t.createdBy), t.createdAt, t.updatedAt, PickSome(p.resolvedAt, t.resolvedAt),
      Pick(p.timeSpent, t.timeSpent), Pick(p.tags, t.tags), Pick(p.attachments, t.attachments),
      Pick(p.comments, t.comments), Pick(p.autoAssigned, t.autoAssigned),
      PickSome(p.requiresAssignment, t.requiresAssignment))
  }

  datatype UserPatch = UserPatch(
    email: Option<string>,
    name: Option<string>,
    role: Option<Role>,
    department: Option<string>,
    supportAreas: Option<seq<string>>,
    isActive: Option<bool>,
    isOnline: Option<bool>,
    failedAttempts: Option<nat>,
    whitelistEntry: Option<bool>)

  const NoUserChanges := UserPatch(None, None, None, None, None, None, None, None, None)

  function ApplyUserPatch(u: User, p: UserPatch): User
  {
    u.(email := Pick(p.email, u.email), name := Pick(p.name, u.name), role := Pick(p.role, u.role),
       department := PickSome(p.department, u.department), supportAreas := Pick(p.supportAreas, u.supportAreas),
       isActive := Pick(p.isActive, u.isActive), isOnline := Pick(p.isOnline, u.isOnline),
       failedAttempts := Pick(p.failedAttempts, u.failedAttempts),
       whitelistEntry := PickSome(p.whitelistEntry, u.whitelistEntry))
  }

  datatype DepartmentPatch = DepartmentPatch(
    name: Option<string>,
    description: Option<string>,
    color: Option<string>,
    supportAreas: Option<seq<SupportArea>>,
    isActive: Option<bool>)

  function ApplyDepartmentPatch(d: Department, p: DepartmentPatch): Department
  {
    d.(name := Pick(p.name, d.name), description := Pick(p.description, d.description),
       color := Pick(p.color, d.color), supportAreas := Pick(p.supportAreas, d.supportAreas),
       isActive := Pick(p.isActive, d.isActive))
  }

  datatype ArticlePatch = ArticlePatch(
    title: Option<string>,
    content: Option<string>,
    category: Option<string>,
    tags: Option<seq<string>>,
    views: Option<nat>,
    helpful: Option<nat>,
    notHelpful: Option<nat>,
    isPublic: Option<bool>)

  function ApplyArticlePatch(a: Article, p: ArticlePatch): Article
  {
    a.(title := Pick(p.title, a.title), content := Pick(p.content, a.content),
       category := Pick(p.category, a.category), tags := Pick(p.tags, a.tags),
       views := Pick(p.views, a.views), helpful := Pick(p.helpful, a.helpful),
       notHelpful := Pick(p.notHelpful, a.notHelpful), isPublic := Pick(p.isPublic, a.isPublic))
  }
}
