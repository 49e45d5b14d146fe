/** The reading status of a book (model/entities/enums/BookStatus.java): seven
    constants in a fixed declaration order, each with a Russian display name,
    and the enum's implicit `name()` / `valueOf` pair. */
module BookStatuses {
  import opened JavaLang

  datatype BookStatus = PLANNED | READING | READ | READING_AGAIN | READ_AGAIN | DROPPED | ON_HOLD

  /** BookStatus.values(): the constants in declaration order. */
  const Values: seq<BookStatus> := [PLANNED, READING, READ, READING_AGAIN, READ_AGAIN, DROPPED, ON_HOLD]

  /** getDisplayNameRu: the literal passed to the constant's constructor. */
  function DisplayNameRu(s: BookStatus): string
  {
    match s
    case PLANNED => "Запланировано"
    case READING => "Читаю"
    case READ => "Прочитана"
    case READING_AGAIN => "Перечитываю"
    case READ_AGAIN => "Перечитана"
    case DROPPED => "Брошено"
    case ON_HOLD => "Отложено"
  }

  /** Enum.name(): the identifier of the constant. */
  function Name(s: BookStatus): (r: string)
    ensures r != [] && ':' !in r
    ensures forall i :: 0 <= i < |r| ==> 'A' <= r[i] <= 'Z' || r[i] == '_'
  {
    match s
    case PLANNED => "PLANNED"
    case READING => "READING"
    case READ => "READ"
    case READING_AGAIN => "READING_AGAIN"
    case READ_AGAIN => "READ_AGAIN"
    case DROPPED => "DROPPED"
    case ON_HOLD => "ON_HOLD"
  }

  /** BookStatus.valueOf: the constant with exactly that name; any other string
      (including a differently cased or padded one) is an IllegalArgumentException. */
  function ValueOf(name: string): (r: Result<BookStatus>)
    ensures r.Err? ==> r.error == IllegalArgument
  {
    if name == "PLANNED" then Ok(PLANNED)
    else if name == "READING" then Ok(READING)
    else if name == "READ" then Ok(READ)
    else if name == "READING_AGAIN" then Ok(READING_AGAIN)
    else if name == "READ_AGAIN" then Ok(READ_AGAIN)
    else if name == "DROPPED" then Ok(DROPPED)
    else if name == "ON_HOLD" then Ok(ON_HOLD)
    else Err(IllegalArgument)
  }

  /** Every constant is listed exactly once. */
  lemma ValuesEnumerateAll()
    ensures |Values| == 7
    ensures forall s: BookStatus :: s in Values
    ensures forall i, j :: 0 <= i < j < |Values| ==> Values[i] != Values[j]
  {
    forall s: BookStatus ensures s in Values {
      match s
      case PLANNED => assert Values[0] == s;
      case READING => assert Values[1] == s;
      case READ => assert Values[2] == s;
      case READING_AGAIN => assert Values[3] == s;
      case READ_AGAIN => assert Values[4] == s;
      case DROPPED => assert Values[5] == s;
      case ON_HOLD => assert Values[6] == s;
    }
  }

  /** valueOf(s.name()) == s. */
  lemma ValueOfName(s: BookStatus)
    ensures ValueOf(Name(s)) == Ok(s)
  {
  }

  /** valueOf succeeds exactly on the seven names, and then inverts name(). */
  lemma ValueOfOnlyNames(name: string)
    ensures ValueOf(name).Ok? <==> exists s: BookStatus :: Name(s) == name
    ensures ValueOf(name).Ok? ==> Name(ValueOf(name).value) == name
  {
    if ValueOf(name).Ok? {
      assert Name(ValueOf(name).value) == name;
    }
  }

  /** Both names identify the constant: distinct constants have distinct
      identifiers and distinct display names. */
  lemma NamesDistinct(s: BookStatus, t: BookStatus)
    requires s != t
    ensures Name(s) != Name(t)
    ensures DisplayNameRu(s) != DisplayNameRu(t)
  {
  }
}
