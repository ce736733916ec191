/** The add-table form of the tables page and its `validateForm`: each field is checked by
    a chain of tests of which only the first failure is reported, the messages are stored
    on the form, and the form is accepted when there are none. */
module TablesPage {
  import opened Common

  /** The form fields that can carry a message. */
  datatype Field = NumberField | SeatsField

  /** The message for the table number: blank text, then text that is not a positive number,
      then a number some existing table already has. `toNumber` is JavaScript's `Number`
      applied to the text, with `None` for `NaN`. */
  function NumberError(number: string, existing: seq<int>, toNumber: string -> Option<real>): (e: Option<string>)
    ensures e.None? <==>
      && !Blank(number) && toNumber(number).Some? && toNumber(number).value > 0.0
      && toNumber(number).value !in RealNumbers(existing)
    ensures Blank(number) ==> e == Some("Table number is required")
    ensures !Blank(number) && (toNumber(number).None? || toNumber(number).value <= 0.0) ==>
      e == Some("Please enter a valid table number")
    ensures !Blank(number) && toNumber(number).Some? && toNumber(number).value > 0.0
            && toNumber(number).value in RealNumbers(existing) ==>
      e == Some("Table number already exists")
  {
    TrimEmptyIff(number);
    if Trim(number) == "" then Some("Table number is required")
    else if toNumber(number).None? || toNumber(number).value <= 0.0 then Some("Please enter a valid table number")
    else if toNumber(number).value in RealNumbers(existing) then Some("Table number already exists")
    else None
  }

  /** The message for the number of seats: blank text, then text that is not a positive
      number. */
  function SeatsError(seats: string, toNumber: string -> Option<real>): (e: Option<string>)
    ensures e.None? <==> !Blank(seats) && toNumber(seats).Some? && toNumber(seats).value > 0.0
    ensures Blank(seats) ==> e == Some("Number of seats is required")
    ensures !Blank(seats) && (toNumber(seats).None? || toNumber(seats).value <= 0.0) ==>
      e == Some("Please enter a valid number of seats")
  {
    TrimEmptyIff(seats);
    if Trim(seats) == "" then Some("Number of seats is required")
    else if toNumber(seats).None? || toNumber(seats).value <= 0.0 then Some("Please enter a valid number of seats")
    else None
  }

  /** The existing table numbers as JavaScript numbers, for the `===` comparison. */
  function RealNumbers(existing: seq<int>): (r: set<real>)
    ensures forall n :: n in existing <==> n as real in r
    ensures forall x :: x in r ==> exists n :: n in existing && x == n as real
  {
    set n | n in existing :: n as real
  }

  /** A number of seats is never checked against the tables: the same text can be a
      duplicate table number and still be a valid number of seats. */
  lemma SeatsIgnoreExistingTables(existing: seq<int>, toNumber: string -> Option<real>)
    requires toNumber("4") == Some(4.0)
    ensures 4 in existing ==> NumberError("4", existing, toNumber) == Some("Table number already exists")
    ensures SeatsError("4", toNumber) == None
  {
    assert !Blank("4") by { assert !IsSpace("4"[0]); }
  }

  class TableForm {
    var number: string
    var seats: string
    var status: string
    var formErrors: map<Field, string>

    /** The empty form: no number, no seats, status `Free`, no messages. */
    constructor ()
      ensures number == "" && seats == "" && status == "Free" && formErrors == map[]
    {
      number, seats, status, formErrors := "", "", "Free", map[];
    }

    /** `validateForm`: the form's messages become those of its two fields, the fields
        themselves are untouched, and the form is accepted exactly when there is no
        message. */
    method ValidateForm(existing: seq<int>, toNumber: string -> Option<real>) returns (ok: bool)
      modifies this
      ensures number == old(number) && seats == old(seats) && status == old(status)
      ensures NumberField in formErrors <==> NumberError(number, existing, toNumber).Some?
      ensures NumberField in formErrors ==> formErrors[NumberField] == NumberError(number, existing, toNumber).value
      ensures SeatsField in formErrors <==> SeatsError(seats, toNumber).Some?
      ensures SeatsField in formErrors ==> formErrors[SeatsField] == SeatsError(seats, toNumber).value
      ensures ok <==> formErrors == map[]
      ensures ok <==> NumberError(number, existing, toNumber).None? && SeatsError(seats, toNumber).None?
    {
      var errors: map<Field, string> := map[];
      var n := toNumber(number);
      if Trim(number) == "" {
        errors := errors[NumberField := "Table number is required"];
      } else if n.None? || n.value <= 0.0 {
        errors := errors[NumberField := "Please enter a valid table number"];
      } else if n.value in RealNumbers(existing) {
        errors := errors[NumberField := "Table number already exists"];
      }
      var s := toNumber(seats);
      if Trim(seats) == "" {
        errors := errors[SeatsField := "Number of seats is required"];
      } else if s.None? || s.value <= 0.0 {
        errors := errors[SeatsField := "Please enter a valid number of seats"];
      }
      TrimEmptyIff(number);
      TrimEmptyIff(seats);
      formErrors := errors;
      ok := |errors.Keys| == 0;
      if !ok {
        assert NumberField in errors || SeatsField in errors by {
          var k :| k in errors.Keys;
        }
      }
    }
  }
}
