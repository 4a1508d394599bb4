/** Enumerations the core refers to but whose declarations are not part of
    this model; the constants are the ones the code names. */
module Enums {
  import opened Wrappers
  import opened Errors

  datatype Sexe = MALE | FEMALE

  /** `Sexe.name`. */
  function SexeName(s: Sexe): string
  {
    match s
    case MALE => "MALE"
    case FEMALE => "FEMALE"
  }

  /** `Sexe.valueOf`: exact, case-sensitive match on the constant name. */
  function SexeValueOf(name: string): (r: Try<Sexe>)
    ensures r.Success? <==> (name == SexeName(MALE) || name == SexeName(FEMALE))
    ensures r.Success? ==> SexeName(r.value) == name
    ensures r.Failure? ==> r.error == IllegalArgument("No enum constant mj.carthy.easyutils.enums.Sexe." + name)
  {
    if name == "MALE" then Success(MALE)
    else if name == "FEMALE" then Success(FEMALE)
    else Failure(IllegalArgument("No enum constant mj.carthy.easyutils.enums.Sexe." + name))
  }

  lemma SexeValueOfName(s: Sexe)
    ensures SexeValueOf(SexeName(s)) == Success(s)
  {
  }

  /** The role names of `UserRole`; `ADMIN` is the one the scopes test for. */
  datatype UserRole = ADMIN | USER

  function RoleName(r: UserRole): string
  {
    match r
    case ADMIN => "ADMIN"
    case USER => "USER"
  }

  /** Why a verification code is pending on a user. */
  datatype CodeReason = EMAIL_VERIFICATION | RESET_PASSWORD

  datatype ZodiacSign =
    | CAPRICORN | AQUARIUS | PISCES | ARIES | TAURUS | GEMINI
    | CANCER | LEO | VIRGO | LIBRA | SCORPIO | SAGITTARIUS
}
