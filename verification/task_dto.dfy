/**
 * The bean-validation constraints declared on the task DTO, as the set of
 * constraints a validator reports as broken for a value.
 */
module TaskDto {
  import opened Wrappers
  import opened Text
  import opened Domain

  /** One broken constraint. */
  datatype Violation =
    | TitleBlank | TitleSize | DescriptionBlank | DescriptionSize | StatusNull | PriorityNull

  /** The message each constraint declares. */
  function Message(v: Violation): string {
    match v
    case TitleBlank => "Title cannot be empty"
    case TitleSize => "Title must be between 3 and 100 characters"
    case DescriptionBlank => "Description cannot be empty"
    case DescriptionSize => "Description cannot exceed 500 characters"
    case StatusNull => "Status is required"
    case PriorityNull => "Priority is required"
  }

  /** `@NotBlank`: present and not empty after `trim()`. */
  predicate NotBlank(s: Option<string>) {
    s.Some? && Trim(s.value) != []
  }

  /** `@Size(min, max)`: a null value passes; otherwise the length is within bounds. */
  predicate SizeWithin(s: Option<string>, min: nat, max: nat) {
    s.None? || min <= |s.value| <= max
  }

  /** Whether the DTO breaks one constraint; each constraint is checked on its own. */
  predicate Breaks(dto: Task, v: Violation) {
    match v
    case TitleBlank => !NotBlank(dto.title)
    case TitleSize => !SizeWithin(dto.title, 3, 100)
    case DescriptionBlank => !NotBlank(dto.description)
    case DescriptionSize => !SizeWithin(dto.description, 0, 500)
    case StatusNull => dto.status.None?
    case PriorityNull => dto.priority.None?
  }

  const AllViolations: set<Violation> :=
    {TitleBlank, TitleSize, DescriptionBlank, DescriptionSize, StatusNull, PriorityNull}


  /** The constant lists every constraint. */
  lemma AllViolationsListed()
    ensures forall v :: v in AllViolations
  {
    forall v ensures v in AllViolations {
      match v
      case TitleBlank =>
      case TitleSize =>
      case DescriptionBlank =>
      case DescriptionSize =>
      case StatusNull =>
      case PriorityNull =>
    }
  }

  /** Every constraint the DTO breaks. */
  function Violations(dto: Task): (r: set<Violation>)
    ensures forall v :: v in r <==> Breaks(dto, v)
  {
    AllViolationsListed();
    set v | v in AllViolations && Breaks(dto, v)
  }

  predicate IsValid(dto: Task) {
    Violations(dto) == {}
  }

  /**
   * A DTO is valid exactly when its title is non-blank with 3 to 100
   * characters, its description is non-blank with at most 500, and status
   * and priority are both set.
   */
  lemma ValidMeans(dto: Task)
    ensures IsValid(dto) <==>
      && dto.title.Some? && Trim(dto.title.value) != [] && 3 <= |dto.title.value| <= 100
      && dto.description.Some? && Trim(dto.description.value) != [] && |dto.description.value| <= 500
      && dto.status.Some? && dto.priority.Some?
  {
    if !IsValid(dto) {
      var v :| v in Violations(dto);
      assert Breaks(dto, v);
    } else {
      assert !Breaks(dto, TitleBlank) && !Breaks(dto, TitleSize);
      assert !Breaks(dto, DescriptionBlank) && !Breaks(dto, DescriptionSize);
      assert !Breaks(dto, StatusNull) && !Breaks(dto, PriorityNull);
    }
  }

  /** A title is blank exactly when all its characters are trimmable. */
  lemma BlankTitle(dto: Task)
    requires dto.title.Some?
    ensures TitleBlank in Violations(dto) <==> forall k :: 0 <= k < |dto.title.value| ==> IsTrimmable(dto.title.value[k])
  {
    TrimEmptyIffAllTrimmable(dto.title.value);
  }

  /** Id and version carry no constraint. */
  lemma IdAndVersionFree(dto: Task, id: Option<int>, version: Option<int>)
    ensures Violations(dto.(id := id, version := version)) == Violations(dto)
  {
  }

  /** A missing title breaks only `@NotBlank`: `@Size` lets null through. */
  lemma NullTitleOnlyBlank(dto: Task)
    requires dto.title.None?
    ensures TitleBlank in Violations(dto) && TitleSize !in Violations(dto)
  {
  }
}
