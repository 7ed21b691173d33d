/** The form that adds a mail account (src/components/Email/EmailAccountModal.tsx):
    choosing a protocol puts its usual port in the port field, and a submit
    with the five required fields filled in hands the form to
    `createEmailAccount` and puts the form back to its initial values. */
module EmailAccountForm {
  import opened Common
  import opened Domain

  datatype Protocol = Imap | Pop3 | Exchange
  {
    function Name(): string
    {
      match this
      case Imap => "imap"
      case Pop3 => "pop3"
      case Exchange => "exchange"
    }
  }

  datatype AccountForm = AccountForm(
    name: string,
    email: string,
    provider: Protocol,
    server: string,
    port: int,
    username: string,
    password: string,
    useSSL: bool,
    isActive: bool,
    syncInterval: int,
    autoCreateTickets: bool,
    defaultPriority: Priority,
    defaultCategory: string)

  /** The form as it opens and as a submit leaves it: IMAP on 993 over SSL,
      active, synchronising every 15 minutes, creating tickets of medium
      priority. */
  function InitialForm(): AccountForm
  {
    AccountForm("", "", Imap, "", 993, "", "", true, true, 15, true, Medium, "")
  }

  /** The port `handleProviderChange` proposes: 995 for POP3 over SSL, 993
      for IMAP over SSL and for Exchange. */
  function DefaultPort(p: Protocol): (port: int)
    ensures port == 995 <==> p == Pop3
    ensures port == 993 <==> p != Pop3
  {
    match p
    case Imap => 993
    case Pop3 => 995
    case Exchange => 993
  }

  /** `handleProviderChange`: the protocol and its port, nothing else. */
  function ChangeProvider(f: AccountForm, p: Protocol): (g: AccountForm)
    ensures g.provider == p && g.port == DefaultPort(p)
  {
    f.(provider := p, port := DefaultPort(p))
  }

  /** A protocol change keeps every field other than the protocol and the
      port, and the last change decides both. */
  lemma ChangeProviderKeepsTheRest(f: AccountForm, p: Protocol, q: Protocol)
    ensures var g := ChangeProvider(f, p);
      && g.name == f.name && g.email == f.email && g.server == f.server && g.username == f.username
      && g.password == f.password && g.useSSL == f.useSSL && g.isActive == f.isActive
      && g.syncInterval == f.syncInterval && g.autoCreateTickets == f.autoCreateTickets
      && g.defaultPriority == f.defaultPriority && g.defaultCategory == f.defaultCategory
    ensures ChangeProvider(ChangeProvider(f, p), q) == ChangeProvider(f, q)
  {
  }

  /** The initial form already shows the port of its protocol. */
  lemma InitialFormHasDefaultPort()
    ensures ChangeProvider(InitialForm(), InitialForm().provider) == InitialForm()
  {
  }

  const MissingFields := "Por favor completa todos los campos obligatorios"

  /** `handleSubmit`: the form handed to `createEmailAccount`, or the alert
      when a required field is empty. */
  function Submit(f: AccountForm): (r: Result<AccountForm>)
    ensures r.Err? <==> f.name == "" || f.email == "" || f.server == "" || f.username == "" || f.password == ""
    ensures r.Err? ==> r.message == MissingFields
    ensures r.Ok? ==> r.value == f
  {
    if f.name == "" || f.email == "" || f.server == "" || f.username == "" || f.password == "" then Err(MissingFields)
    else Ok(f)
  }

  /** The form after a submit: the initial one when the account was handed
      on, unchanged when the submit was refused. */
  function FormAfterSubmit(f: AccountForm): (g: AccountForm)
    ensures Submit(f).Ok? ==> g == InitialForm()
    ensures Submit(f).Err? ==> g == f
  {
    if Submit(f).Ok? then InitialForm() else f
  }

  /** The form left by a submit is always refused, so one account is handed
      on per filled-in form. */
  lemma SubmitTwiceCreatesOnce(f: AccountForm)
    ensures Submit(FormAfterSubmit(f)).Err?
  {
  }
}
