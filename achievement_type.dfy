/** The kind of progress tracking an achievement uses, and its
    hand-written keyed coder (Sources/AchievementsSystem/AchievementType.swift). */
module AchievementTypes {

  /** Either locked or unlocked with no partial progress, an integer count
      toward a threshold, or a real-valued ratio toward a threshold. */
  datatype AchievementType =
    | Immediate
    | Counted(threshold: int)
    | Progression(ratioThreshold: real)

  /** A value stored under one key of a keyed coding container. */
  datatype Value = Null | Text(text: string) | Integer(integer: int) | Number(number: real)

  /** A keyed coding container. */
  type Container = map<string, Value>

  /** The failures a keyed decoding container reports. */
  datatype DecodingError =
    | KeyNotFound(key: string)
    | ValueNotFound(key: string)
    | TypeMismatch(key: string)
    | DataCorrupted(key: string, debugDescription: string)

  /** The outcome of a decoding call that may throw. */
  datatype Result<T> = Success(value: T) | Failure(error: DecodingError)
  {
    predicate IsFailure() { Failure? }

    function PropagateFailure<U>(): Result<U>
      requires Failure?
    {
      Failure(error)
    }

    function Extract(): T
      requires Success?
    {
      value
    }
  }

  /** The coding keys. */
  const TypeKey := "type"
  const ThresholdIntKey := "thresholdInt"
  const ThresholdDoubleKey := "thresholdDouble"

  /** The discriminant written under `TypeKey`. */
  function Tag(t: AchievementType): string {
    match t
    case Immediate => "immediate"
    case Counted(_) => "counted"
    case Progression(_) => "progression"
  }

  /** The message of the data-corrupted error for an unknown discriminant. */
  function UnknownTypeMessage(tag: string): string {
    "Unknown AchievementType type: " + tag
  }

  /** Decoding a string, an integer or a real under one key: a missing key,
      a null value and a value of another kind fail differently. */
  function DecodeText(c: Container, key: string): Result<string> {
    if key !in c then Failure(KeyNotFound(key))
    else if c[key].Null? then Failure(ValueNotFound(key))
    else if c[key].Text? then Success(c[key].text)
    else Failure(TypeMismatch(key))
  }

  function DecodeInteger(c: Container, key: string): Result<int> {
    if key !in c then Failure(KeyNotFound(key))
    else if c[key].Null? then Failure(ValueNotFound(key))
    else if c[key].Integer? then Success(c[key].integer)
    else Failure(TypeMismatch(key))
  }

  function DecodeNumber(c: Container, key: string): Result<real> {
    if key !in c then Failure(KeyNotFound(key))
    else if c[key].Null? then Failure(ValueNotFound(key))
    else if c[key].Number? then Success(c[key].number)
    else Failure(TypeMismatch(key))
  }

  /** `init(from:)`: read the discriminant, then the threshold key that
      belongs to it; any other discriminant is data corruption. */
  function Decode(c: Container): (r: Result<AchievementType>)
    ensures r.Success? ==> TypeKey in c && c[TypeKey] == Text(Tag(r.value))
    ensures r.Success? && r.value.Counted? ==>
              ThresholdIntKey in c && c[ThresholdIntKey] == Integer(r.value.threshold)
    ensures r.Success? && r.value.Progression? ==>
              ThresholdDoubleKey in c && c[ThresholdDoubleKey] == Number(r.value.ratioThreshold)
  {
    var tag :- DecodeText(c, TypeKey);
    if tag == "immediate" then
      Success(Immediate)
    else if tag == "counted" then
      var threshold :- DecodeInteger(c, ThresholdIntKey);
      Success(Counted(threshold))
    else if tag == "progression" then
      var threshold :- DecodeNumber(c, ThresholdDoubleKey);
      Success(Progression(threshold))
    else
      Failure(DataCorrupted(TypeKey, UnknownTypeMessage(tag)))
  }

  /** `encode(to:)`: write the discriminant and, for the two kinds that have
      one, the threshold under its own key, into a fresh container. */
  method Encode(t: AchievementType) returns (container: Container)
    ensures TypeKey in container && container[TypeKey] == Text(Tag(t))
    ensures Tag(t) in {"immediate", "counted", "progression"}
    ensures t.Immediate? ==> container.Keys == {TypeKey}
    ensures t.Counted? ==>
              container.Keys == {TypeKey, ThresholdIntKey} && container[ThresholdIntKey] == Integer(t.threshold)
    ensures t.Progression? ==>
              container.Keys == {TypeKey, ThresholdDoubleKey} && container[ThresholdDoubleKey] == Number(t.ratioThreshold)
    ensures Decode(container) == Success(t)
  {
    container := map[];
    match t {
      case Immediate =>
        container := container[TypeKey := Text("immediate")];
      case Counted(threshold) =>
        container := container[TypeKey := Text("counted")];
        container := container[ThresholdIntKey := Integer(threshold)];
      case Progression(threshold) =>
        container := container[TypeKey := Text("progression")];
        container := container[ThresholdDoubleKey := Number(threshold)];
    }
  }

  /** A missing or non-string discriminant, or one outside the three known
      tags, fails; the unknown tag is reported as data corruption on `type`. */
  lemma DecodeBadTag(c: Container)
    ensures TypeKey !in c ==> Decode(c) == Failure(KeyNotFound(TypeKey))
    ensures TypeKey in c && c[TypeKey].Null? ==> Decode(c) == Failure(ValueNotFound(TypeKey))
    ensures TypeKey in c && !c[TypeKey].Null? && !c[TypeKey].Text? ==> Decode(c) == Failure(TypeMismatch(TypeKey))
    ensures TypeKey in c && c[TypeKey].Text?
            && c[TypeKey].text !in {"immediate", "counted", "progression"} ==>
              Decode(c) == Failure(DataCorrupted(TypeKey, UnknownTypeMessage(c[TypeKey].text)))
  {
  }

  /** A known discriminant without its threshold key, or with a null one,
      fails on that key. */
  lemma DecodeMissingThreshold(c: Container)
    ensures TypeKey in c && c[TypeKey] == Text("counted") && ThresholdIntKey !in c ==>
              Decode(c) == Failure(KeyNotFound(ThresholdIntKey))
    ensures TypeKey in c && c[TypeKey] == Text("progression") && ThresholdDoubleKey !in c ==>
              Decode(c) == Failure(KeyNotFound(ThresholdDoubleKey))
    ensures TypeKey in c && c[TypeKey] == Text("counted") && ThresholdIntKey in c && c[ThresholdIntKey].Null? ==>
              Decode(c) == Failure(ValueNotFound(ThresholdIntKey))
    ensures TypeKey in c && c[TypeKey] == Text("progression") && ThresholdDoubleKey in c
            && c[ThresholdDoubleKey].Null? ==>
              Decode(c) == Failure(ValueNotFound(ThresholdDoubleKey))
  {
  }

  /** Decoding reads only the discriminant and the threshold key of its own
      kind: changing any other key does not change the outcome. */
  lemma DecodeIgnoresOtherKeys(c: Container, k: string, v: Value)
    requires k != TypeKey
    requires TypeKey in c && c[TypeKey] == Text("counted") ==> k != ThresholdIntKey
    requires TypeKey in c && c[TypeKey] == Text("progression") ==> k != ThresholdDoubleKey
    ensures Decode(c[k := v]) == Decode(c)
  {
  }
}
