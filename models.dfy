/**
 * The records the stores of internal/passport and data/database.go hold (models.User and
 * internal/passport/models), and the errors the internal/passport stores return.
 */
module Models {

  /**
   * A time.Time. The stores only copy instants around, so an instant is kept as the
   * RFC 3339 text it was parsed from.
   */
  datatype Time = Time(rfc3339: string)

  /** The zero time.Time, January 1 of year 1, UTC. */
  const ZeroTime := Time("0001-01-01T00:00:00Z")

  datatype User = User(
    id: int,
    firstName: string,
    lastName: string,
    dateOfBirth: Time,
    locationOfBirth: string)

  /** models.User{}: what a failed lookup returns. */
  const ZeroUser := User(0, "", "", ZeroTime, "")

  datatype Passport = Passport(
    id: string,
    dateOfIssue: Time,
    dateOfExpiry: Time,
    authority: string,
    userId: int)

  /** models.Passport{}. */
  const ZeroPassport := Passport("", ZeroTime, ZeroTime, "", 0)

  /**
   * The errors of UserService and PassportService. Each stands for the fmt.Errorf message
   * of the same shape: "user %d not found", "passport %q not found", "passport %q already exists".
   */
  datatype StoreError =
    | UserNotFound(userId: int)
    | PassportNotFound(passportId: string)
    | PassportAlreadyExists(passportId: string)
}
