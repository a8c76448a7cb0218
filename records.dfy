/**
 * The rows the application reads from and writes to its store: sessions,
 * registrations, conversation types, headers and colleagues, with their
 * status enumerations.
 */
module Records {
  import opened Wrappers

  datatype SessionStatus = Draft | Published | Cancelled {
    /** The value stored in the `status` column. */
    function Name(): string {
      match this
      case Draft => "draft"
      case Published => "published"
      case Cancelled => "cancelled"
    }
  }

  datatype RegistrationStatus = Active | Cancelled | NoShow {
    /** The value stored in the `status` column. */
    function Name(): string {
      match this
      case Active => "active"
      case Cancelled => "cancelled"
      case NoShow => "no_show"
    }
  }

  datatype ConversationTypeRecord = ConversationTypeRecord(
    id: string,
    name: string,
    description: Option<string>,
    created_at: string)

  /** A bookable session; `conversation_type` is present when the query joins it. */
  datatype Session = Session(
    id: string,
    conversation_type_id: string,
    date: string,
    start_time: string,
    end_time: Option<string>,
    location: string,
    is_online: bool,
    teams_link: Option<string>,
    facilitator: string,
    facilitator_user_id: Option<string>,
    max_participants: int,
    status: SessionStatus,
    target_audience: Option<string>,
    notes: Option<string>,
    instructions: Option<string>,
    created_by: string,
    conversation_type: Option<ConversationTypeRecord>)

  /** A sign-up; `session` is present when the query joins it. */
  datatype Registration = Registration(
    id: string,
    session_id: string,
    email: string,
    name: string,
    department: string,
    status: RegistrationStatus,
    cancelled_at: Option<string>,
    cancellation_token: Option<string>,
    created_at: string,
    session: Option<Session>)

  datatype Header = Header(
    id: string,
    title: string,
    subtitle: string,
    is_active: bool,
    created_at: string)

  datatype Colleague = Colleague(
    id: string,
    name: string,
    email: string,
    photo_url: Option<string>,
    is_active: bool,
    available_for_spelwerkvorm: Option<bool>)

  /** A session as the listing pages pass it on: with its number of active registrations. */
  datatype CountedSession = CountedSession(session: Session, registrationCount: Option<int>)

  /** The joined conversation-type name of a session, if any. */
  function SessionTypeName(s: Session): Option<string> {
    if s.conversation_type.Some? then Some(s.conversation_type.value.name) else None
  }

  /** `reg.session?.conversation_type?.name`. */
  function RegistrationTypeName(r: Registration): Option<string> {
    if r.session.Some? then SessionTypeName(r.session.value) else None
  }
}
