/**
 * The store's enumerations and the row shapes of the tables the core reads and
 * writes. A column that may be null is an `Option`; a column that may be left
 * out of an insert is an `Option` in the insert shape. Timestamps are the ISO
 * strings the store returns; amounts and ratings are reals.
 */
module Schema {
  import opened Wrappers
  import opened Seqs

  type Uuid = string
  type Timestamp = string

  /** `payment_status`. */
  datatype PaymentStatus = Pending | Completed | Failed | Refunded {
    function Name(): string {
      match this
      case Pending => "pending"
      case Completed => "completed"
      case Failed => "failed"
      case Refunded => "refunded"
    }
  }

  /** `session_status`. */
  datatype SessionStatus = Scheduled | InProgress | Completed | Cancelled {
    function Name(): string {
      match this
      case Scheduled => "scheduled"
      case InProgress => "in_progress"
      case Completed => "completed"
      case Cancelled => "cancelled"
    }
  }

  /** `tutor_status`. */
  datatype TutorStatus = Pending | Approved | Rejected | Suspended {
    function Name(): string {
      match this
      case Pending => "pending"
      case Approved => "approved"
      case Rejected => "rejected"
      case Suspended => "suspended"
    }
  }

  /** `user_role`. */
  datatype UserRole = Learner | Tutor | Admin {
    function Name(): string {
      match this
      case Learner => "learner"
      case Tutor => "tutor"
      case Admin => "admin"
    }
  }

  /** The `Constants` arrays, in the order the file lists them. */
  const PaymentStatusValues: seq<string> := ["pending", "completed", "failed", "refunded"]
  const SessionStatusValues: seq<string> := ["scheduled", "in_progress", "completed", "cancelled"]
  const TutorStatusValues: seq<string> := ["pending", "approved", "rejected", "suspended"]
  const UserRoleValues: seq<string> := ["learner", "tutor", "admin"]

  /** The members of each enumeration in the order its union type lists them. */
  const AllPaymentStatuses: seq<PaymentStatus> := [PaymentStatus.Pending, PaymentStatus.Completed, PaymentStatus.Failed, PaymentStatus.Refunded]
  const AllSessionStatuses: seq<SessionStatus> := [Scheduled, InProgress, SessionStatus.Completed, Cancelled]
  const AllTutorStatuses: seq<TutorStatus> := [TutorStatus.Pending, Approved, Rejected, Suspended]
  const AllUserRoles: seq<UserRole> := [Learner, Tutor, Admin]

  /** The names of a list of values. */
  predicate NamesAre<E>(all: seq<E>, name: E -> string, values: seq<string>) {
    |all| == |values| && forall i :: 0 <= i < |all| ==> name(all[i]) == values[i]
  }

  /** Reading a `payment_status` column: exactly the `Constants` values are accepted. */
  function ParsePaymentStatus(s: string): (r: Option<PaymentStatus>)
    ensures r.Some? <==> s in PaymentStatusValues
    ensures r.Some? ==> r.value.Name() == s
  {
    if s == "pending" then Some(PaymentStatus.Pending)
    else if s == "completed" then Some(PaymentStatus.Completed)
    else if s == "failed" then Some(PaymentStatus.Failed)
    else if s == "refunded" then Some(PaymentStatus.Refunded)
    else None
  }

  /** Reading a `session_status` column: exactly the `Constants` values are accepted. */
  function ParseSessionStatus(s: string): (r: Option<SessionStatus>)
    ensures r.Some? <==> s in SessionStatusValues
    ensures r.Some? ==> r.value.Name() == s
  {
    if s == "scheduled" then Some(Scheduled)
    else if s == "in_progress" then Some(InProgress)
    else if s == "completed" then Some(SessionStatus.Completed)
    else if s == "cancelled" then Some(Cancelled)
    else None
  }

  /** Reading a `tutor_status` column: exactly the `Constants` values are accepted. */
  function ParseTutorStatus(s: string): (r: Option<TutorStatus>)
    ensures r.Some? <==> s in TutorStatusValues
    ensures r.Some? ==> r.value.Name() == s
  {
    if s == "pending" then Some(TutorStatus.Pending)
    else if s == "approved" then Some(Approved)
    else if s == "rejected" then Some(Rejected)
    else if s == "suspended" then Some(Suspended)
    else None
  }

  /** Reading a `user_role` column: exactly the `Constants` values are accepted. */
  function ParseUserRole(s: string): (r: Option<UserRole>)
    ensures r.Some? <==> s in UserRoleValues
    ensures r.Some? ==> r.value.Name() == s
  {
    if s == "learner" then Some(Learner)
    else if s == "tutor" then Some(Tutor)
    else if s == "admin" then Some(Admin)
    else None
  }

  /** Writing a status and reading it back gives the same status, for every status. */
  lemma PaymentStatusRoundTrip(p: PaymentStatus)
    ensures ParsePaymentStatus(p.Name()) == Some(p)
  {
  }

  lemma SessionStatusRoundTrip(p: SessionStatus)
    ensures ParseSessionStatus(p.Name()) == Some(p)
  {
  }

  lemma TutorStatusRoundTrip(p: TutorStatus)
    ensures ParseTutorStatus(p.Name()) == Some(p)
  {
  }

  lemma UserRoleRoundTrip(p: UserRole)
    ensures ParseUserRole(p.Name()) == Some(p)
  {
  }

  /**
   * Each `Constants` array lists exactly the union type's values, in its order,
   * each once, and every value of the enumeration is among them.
   */
  lemma PaymentStatusConstants()
    ensures NamesAre(AllPaymentStatuses, (p: PaymentStatus) => p.Name(), PaymentStatusValues)
    ensures Distinct(PaymentStatusValues)
    ensures forall p: PaymentStatus :: p in AllPaymentStatuses
  {
    forall p: PaymentStatus ensures p in AllPaymentStatuses {
      match p
      case Pending => assert AllPaymentStatuses[0] == p;
      case Completed => assert AllPaymentStatuses[1] == p;
      case Failed => assert AllPaymentStatuses[2] == p;
      case Refunded => assert AllPaymentStatuses[3] == p;
    }
  }

  lemma SessionStatusConstants()
    ensures NamesAre(AllSessionStatuses, (p: SessionStatus) => p.Name(), SessionStatusValues)
    ensures Distinct(SessionStatusValues)
    ensures forall p: SessionStatus :: p in AllSessionStatuses
  {
    forall p: SessionStatus ensures p in AllSessionStatuses {
      match p
      case Scheduled => assert AllSessionStatuses[0] == p;
      case InProgress => assert AllSessionStatuses[1] == p;
      case Completed => assert AllSessionStatuses[2] == p;
      case Cancelled => assert AllSessionStatuses[3] == p;
    }
  }

  lemma TutorStatusConstants()
    ensures NamesAre(AllTutorStatuses, (p: TutorStatus) => p.Name(), TutorStatusValues)
    ensures Distinct(TutorStatusValues)
    ensures forall p: TutorStatus :: p in AllTutorStatuses
  {
    forall p: TutorStatus ensures p in AllTutorStatuses {
      match p
      case Pending => assert AllTutorStatuses[0] == p;
      case Approved => assert AllTutorStatuses[1] == p;
      case Rejected => assert AllTutorStatuses[2] == p;
      case Suspended => assert AllTutorStatuses[3] == p;
    }
  }

  lemma UserRoleConstants()
    ensures NamesAre(AllUserRoles, (p: UserRole) => p.Name(), UserRoleValues)
    ensures Distinct(UserRoleValues)
    ensures forall p: UserRole :: p in AllUserRoles
  {
    forall p: UserRole ensures p in AllUserRoles {
      match p
      case Learner => assert AllUserRoles[0] == p;
      case Tutor => assert AllUserRoles[1] == p;
      case Admin => assert AllUserRoles[2] == p;
    }
  }

  /** A `payments` row: status is always an enumeration value; the PayPal ids and processed_at may be null. */
  datatype PaymentRow = PaymentRow(
    id: Uuid,
    amount: real,
    createdAt: Timestamp,
    currency: string,
    payeeId: Uuid,
    payerId: Uuid,
    paypalOrderId: Option<string>,
    paypalPaymentId: Option<string>,
    processedAt: Option<Timestamp>,
    sessionId: Uuid,
    status: PaymentStatus)

  /** A `payments` insert: amount, payee, payer and session are required; every other column may be omitted. */
  datatype PaymentInsert = PaymentInsert(
    amount: real,
    payeeId: Uuid,
    payerId: Uuid,
    sessionId: Uuid,
    currency: Option<string>,
    status: Option<PaymentStatus>,
    paypalOrderId: Option<string>,
    paypalPaymentId: Option<string>,
    processedAt: Option<Timestamp>)

  /** A `messages` row: message_type and file_url may be null. */
  datatype MessageRow = MessageRow(
    id: Uuid,
    content: string,
    createdAt: Timestamp,
    fileUrl: Option<string>,
    messageType: Option<string>,
    senderId: Uuid,
    sessionId: Uuid)

  /** A `messages` insert: content, sender and session are required. */
  datatype MessageInsert = MessageInsert(
    content: string,
    senderId: Uuid,
    sessionId: Uuid,
    messageType: Option<string>,
    fileUrl: Option<string>)

  /** A `tutoring_sessions` row. */
  datatype SessionRow = SessionRow(
    id: Uuid,
    actualEnd: Option<Timestamp>,
    actualStart: Option<Timestamp>,
    createdAt: Timestamp,
    description: Option<string>,
    feedback: Option<string>,
    learnerId: Uuid,
    rating: Option<real>,
    scheduledEnd: Timestamp,
    scheduledStart: Timestamp,
    sessionNotes: Option<string>,
    status: SessionStatus,
    subjectId: Uuid,
    title: string,
    tutorId: Uuid,
    updatedAt: Timestamp)

  /** A `tutors` row (the `availability` JSON column is not modelled). */
  datatype TutorRow = TutorRow(
    id: Uuid,
    approvedAt: Option<Timestamp>,
    approvedBy: Option<Uuid>,
    certifications: Option<seq<string>>,
    createdAt: Timestamp,
    education: Option<string>,
    experienceYears: Option<int>,
    hourlyRate: Option<real>,
    languages: Option<seq<string>>,
    status: TutorStatus,
    updatedAt: Timestamp,
    userId: Uuid)

  /** A `profiles` row. */
  datatype ProfileRow = ProfileRow(
    id: Uuid,
    userId: Uuid,
    email: string,
    firstName: Option<string>,
    lastName: Option<string>,
    bio: Option<string>,
    avatarUrl: Option<string>,
    phone: Option<string>,
    createdAt: Timestamp)

  /** A `subjects` row. */
  datatype SubjectRow = SubjectRow(id: Uuid, name: string, category: Option<string>, description: Option<string>)

  /** A `tutor_subjects` insert. */
  datatype TutorSubjectInsert = TutorSubjectInsert(tutorId: Uuid, subjectId: Uuid, proficiencyLevel: Option<string>)

  /** A `user_roles` row. */
  datatype UserRoleRow = UserRoleRow(id: Uuid, userId: Uuid, role: UserRole)

  /**
   * An embedded relation as the store returns it from a join: absent (null), one
   * object, or an array of them.
   */
  datatype Embedded<T> = Missing | Single(item: T) | Several(items: seq<T>)
}
