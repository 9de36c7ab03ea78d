/** The Note entity and the NoteBuilder that assembles it from four optional
    slots, checking them in the fixed order id, title, body, timeStamp. */
module Notes {
  import opened Wrappers
  import opened Errors

  /** A point in time. The model never inspects it: a `Date` object is always
      truthy, so the builder only asks whether one was supplied. */
  datatype Date = Date(epochMillis: int)

  /** The four fields of a Note, as its getters report them. */
  datatype NoteValue = NoteValue(id: int, title: string, body: string, timeStamp: Date)

  /** The builder's four optional slots, in the order `build()` checks them. */
  datatype Slots = Slots(id: Option<int>, title: Option<string>, body: Option<string>, timeStamp: Option<Date>)

  const EmptySlots: Slots := Slots(None, None, None, None)

  /** The slots filled from every field of `n`. */
  function SlotsOf(n: NoteValue): Slots {
    Slots(Some(n.id), Some(n.title), Some(n.body), Some(n.timeStamp))
  }

  /** The builder's members, named as in its error messages. */
  datatype Member = IdMember | TitleMember | BodyMember | TimeStampMember

  function MemberName(m: Member): string {
    match m
    case IdMember => "id"
    case TitleMember => "title"
    case BodyMember => "body"
    case TimeStampMember => "timeStamp"
  }

  /** The order in which `build()` checks the slots. */
  const CheckOrder: seq<Member> := [IdMember, TitleMember, BodyMember, TimeStampMember]

  function Position(m: Member): (k: nat)
    ensures k < |CheckOrder| && CheckOrder[k] == m
  {
    match m
    case IdMember => 0
    case TitleMember => 1
    case BodyMember => 2
    case TimeStampMember => 3
  }

  /** JavaScript truthiness of one slot: an absent slot is falsy, and so are
      the number 0 and the empty string; a Date is always truthy. */
  predicate Truthy(s: Slots, m: Member) {
    match m
    case IdMember => s.id.Some? && s.id.value != 0
    case TitleMember => s.title.Some? && s.title.value != ""
    case BodyMember => s.body.Some? && s.body.value != ""
    case TimeStampMember => s.timeStamp.Some?
  }

  /** A note whose every field passes the builder's check. */
  predicate Buildable(n: NoteValue) {
    n.id != 0 && n.title != "" && n.body != ""
  }

  const NonNullableSuffix: string := "' is non-nullable"

  /** The builder's error text: the member's name in single quotes, followed
      by "is non-nullable". */
  function FormatError(member: string): (msg: string)
    ensures Unenclose("'", NonNullableSuffix, msg) == Some(member)
  {
    UnencloseEnclose("'", member, NonNullableSuffix);
    "'" + member + NonNullableSuffix
  }

  /** The plain error `build()` throws for member `m`. */
  function MissingError(m: Member): (e: Error)
    ensures !e.IsHttpError() && Unenclose("'", NonNullableSuffix, e.message) == Some(MemberName(m))
  {
    Error(Generic, FormatError(MemberName(m)))
  }

  /** Distinct members give distinct errors, so an error names exactly one member. */
  lemma {:induction false} MissingErrorInjective(m: Member, m': Member)
    requires MissingError(m) == MissingError(m')
    ensures m == m'
  {
    assert Some(MemberName(m)) == Some(MemberName(m'));
  }

  /** What `build()` does with the slots: the first falsy slot in check order
      is reported, otherwise the note holds exactly the slots' values. */
  function Validate(s: Slots): (r: Result<NoteValue, Error>)
    ensures r.Success? <==> forall m :: Truthy(s, m)
    ensures r.Success? ==> SlotsOf(r.value) == s && Buildable(r.value)
    ensures r.Failure? ==> exists m :: !Truthy(s, m) && r.error == MissingError(m)
  {
    if !Truthy(s, IdMember) then Failure(MissingError(IdMember))
    else if !Truthy(s, TitleMember) then Failure(MissingError(TitleMember))
    else if !Truthy(s, BodyMember) then Failure(MissingError(BodyMember))
    else if !Truthy(s, TimeStampMember) then Failure(MissingError(TimeStampMember))
    else Success(NoteValue(s.id.value, s.title.value, s.body.value, s.timeStamp.value))
  }

  /** `build()` fails naming member `m` exactly when `m`'s slot is falsy and
      every slot checked before it is truthy. */
  lemma {:induction false} ValidateReportsFirstMissing(s: Slots, m: Member)
    ensures Validate(s) == Failure(MissingError(m)) <==>
            !Truthy(s, m) && forall k :: 0 <= k < Position(m) ==> Truthy(s, CheckOrder[k])
  {
    var first :=
      if !Truthy(s, IdMember) then IdMember
      else if !Truthy(s, TitleMember) then TitleMember
      else if !Truthy(s, BodyMember) then BodyMember
      else TimeStampMember;
    if Validate(s) == Failure(MissingError(m)) {
      assert Validate(s) == Failure(MissingError(first));
      MissingErrorInjective(first, m);
    }
    assert CheckOrder[0] == IdMember && CheckOrder[1] == TitleMember && CheckOrder[2] == BodyMember;
  }

  /** Setting all four slots from a note's fields builds that very note exactly
      when every field is truthy. */
  lemma {:induction false} ValidateSlotsOf(n: NoteValue)
    ensures Validate(SlotsOf(n)) == Success(n) <==> Buildable(n)
  {
    if Buildable(n) {
      assert forall m :: Truthy(SlotsOf(n), m);
    }
  }

  class Note {
    const id: int
    var title: string
    var body: string
    const timeStamp: Date

    constructor (id: int, title: string, body: string, timeStamp: Date)
      ensures Value() == NoteValue(id, title, body, timeStamp)
    {
      this.id := id;
      this.title := title;
      this.body := body;
      this.timeStamp := timeStamp;
    }

    /** The note's fields as a value. */
    function Value(): NoteValue
      reads this
    {
      NoteValue(id, title, body, timeStamp)
    }

    function GetId(): (r: int)
      reads this
      ensures r == Value().id
    {
      id
    }

    function GetTitle(): (r: string)
      reads this
      ensures r == Value().title
    {
      title
    }

    function GetBody(): (r: string)
      reads this
      ensures r == Value().body
    {
      body
    }

    function GetTimeStamp(): (r: Date)
      reads this
      ensures r == Value().timeStamp
    {
      timeStamp
    }

    method SetTitle(title: string)
      modifies this
      ensures Value() == old(Value()).(title := title)
    {
      this.title := title;
    }

    method SetBody(body: string)
      modifies this
      ensures Value() == old(Value()).(body := body)
    {
      this.body := body;
    }
  }

  class NoteBuilder {
    var idSet: Option<int>
    var titleSet: Option<string>
    var bodySet: Option<string>
    var timeStampSet: Option<Date>

    constructor ()
      ensures State() == EmptySlots
    {
      idSet, titleSet, bodySet, timeStampSet := None, None, None, None;
    }

    /** The four slots as a value. */
    function State(): Slots
      reads this
    {
      Slots(idSet, titleSet, bodySet, timeStampSet)
    }

    method Id(id: int) returns (self: NoteBuilder)
      modifies this
      ensures self == this && State() == old(State()).(id := Some(id))
    {
      idSet := Some(id);
      self := this;
    }

    method Title(title: string) returns (self: NoteBuilder)
      modifies this
      ensures self == this && State() == old(State()).(title := Some(title))
    {
      titleSet := Some(title);
      self := this;
    }

    method Body(body: string) returns (self: NoteBuilder)
      modifies this
      ensures self == this && State() == old(State()).(body := Some(body))
    {
      bodySet := Some(body);
      self := this;
    }

    method TimeStamp(timeStamp: Date) returns (self: NoteBuilder)
      modifies this
      ensures self == this && State() == old(State()).(timeStamp := Some(timeStamp))
    {
      timeStampSet := Some(timeStamp);
      self := this;
    }

    /** Checks the slots in order and either throws for the first falsy one or
        returns a new Note holding the slots' values. Reads the slots only. */
    method Build() returns (r: Result<Note, Error>)
      ensures r.Failure? ==> Validate(State()) == Failure(r.error)
      ensures r.Success? ==> fresh(r.value) && Validate(State()) == Success(r.value.Value())
      ensures r.Success? ==> Some(r.value.GetId()) == idSet && Some(r.value.GetTitle()) == titleSet &&
                             Some(r.value.GetBody()) == bodySet && Some(r.value.GetTimeStamp()) == timeStampSet
    {
      if !Truthy(State(), IdMember) {
        return Failure(MissingError(IdMember));
      }
      if !Truthy(State(), TitleMember) {
        return Failure(MissingError(TitleMember));
      }
      if !Truthy(State(), BodyMember) {
        return Failure(MissingError(BodyMember));
      }
      if !Truthy(State(), TimeStampMember) {
        return Failure(MissingError(TimeStampMember));
      }
      var note := new Note(idSet.value, titleSet.value, bodySet.value, timeStampSet.value);
      return Success(note);
    }
  }

  /** A client of the builder: chained setters, a later setter overriding an
      earlier one, and two builds from one builder giving equal fields. */
  method BuilderClient(stamp: Date) {
    var b := new NoteBuilder();
    var b1 := b.Id(0);
    var missing := b1.Build();
    assert missing == Failure(MissingError(IdMember));
    b1 := b1.Id(123);
    b1 := b1.Title("Hello, World");
    missing := b1.Build();
    assert missing == Failure(MissingError(BodyMember));
    b1 := b1.Body("Your First Program");
    b1 := b1.TimeStamp(stamp);
    var first := b1.Build();
    var second := b1.Build();
    assert first.Success? && second.Success? && first.value != second.value;
    assert first.value.Value() == second.value.Value() == NoteValue(123, "Hello, World", "Your First Program", stamp);
    first.value.SetTitle("Math");
    assert first.value.Value() == NoteValue(123, "Math", "Your First Program", stamp);
    assert second.value.GetTitle() == "Hello, World";
  }
}
