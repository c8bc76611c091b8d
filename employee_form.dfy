/**
 * The employee data form: five inputs, a check that the mandatory ones are
 * filled, and the roster record stored on submission.
 */
module EmployeeInput {
  import opened Wrappers
  import opened Store

  /** What is stored for a mobile number left empty. */
  const NotProvided: string := "Not provided"

  /**
   * The record built from the inputs: none when the employee ID, name, gender
   * or department is empty (`!field`); otherwise those four copied and the
   * mobile number copied, or "Not provided" when it is empty.
   */
  function BuildEmployee(empID: string, name: string, gender: string, department: string, mobile: string)
    : (r: Option<Employee>)
    ensures r.None? <==> empID == [] || name == [] || gender == [] || department == []
    ensures r.Some? ==> r.value.empID == empID && r.value.name == name
                        && r.value.gender == gender && r.value.department == department
    ensures r.Some? && mobile == [] ==> r.value.mobile == NotProvided
    ensures r.Some? && mobile != [] ==> r.value.mobile == mobile
  {
    if empID == [] || name == [] || gender == [] || department == [] then None
    else Some(Employee(empID, name, gender, department, if mobile == [] then NotProvided else mobile))
  }

  /** No field of a stored record is ever empty. */
  lemma BuiltRecordComplete(empID: string, name: string, gender: string, department: string, mobile: string)
    requires BuildEmployee(empID, name, gender, department, mobile).Some?
    ensures var e := BuildEmployee(empID, name, gender, department, mobile).value;
            e.empID != [] && e.name != [] && e.gender != [] && e.department != [] && e.mobile != []
  {
  }

  /** What a submission reports. */
  datatype Submission = MissingMandatory | WriteFailed | Submitted(record: Employee)

  class EmployeeForm {
    const db: ClinicDb
    var empID: string
    var name: string
    var gender: string
    var department: string
    var mobile: string

    /** All five inputs empty. */
    predicate Cleared()
      reads this
    {
      empID == [] && name == [] && gender == [] && department == [] && mobile == []
    }

    constructor (db: ClinicDb)
      ensures this.db == db && Cleared()
    {
      this.db := db;
      empID := [];
      name := [];
      gender := [];
      department := [];
      mobile := [];
    }

    /** The inputs' `onChange` handlers. */
    method Fill(empID: string, name: string, gender: string, department: string, mobile: string)
      modifies this
      ensures this.empID == empID && this.name == name && this.gender == gender
      ensures this.department == department && this.mobile == mobile
    {
      this.empID := empID;
      this.name := name;
      this.gender := gender;
      this.department := department;
      this.mobile := mobile;
    }

    /**
     * `handleSubmit`: with a mandatory input empty nothing is written; else
     * the record is added to the roster (`writeOk` false: the write failed)
     * and, only when it was, all five inputs are cleared.
     */
    method Submit(writeOk: bool) returns (r: Submission)
      requires db.Valid()
      modifies this, db
      ensures db.Valid()
      ensures var built := BuildEmployee(old(empID), old(name), old(gender), old(department), old(mobile));
              && (built.None? ==> r == MissingMandatory)
              && (built.Some? && !writeOk ==> r == WriteFailed)
              && (built.Some? && writeOk ==> r == Submitted(built.value)
                                             && db.employees == old(db.employees) + [built.value]
                                             && Cleared())
      ensures !r.Submitted? ==> db.employees == old(db.employees)
                                && empID == old(empID) && name == old(name) && gender == old(gender)
                                && department == old(department) && mobile == old(mobile)
      ensures db.queue == old(db.queue) && db.meta == old(db.meta)
      ensures db.sickConditions == old(db.sickConditions) && db.medicines == old(db.medicines)
    {
      var built := BuildEmployee(empID, name, gender, department, mobile);
      if built.None? {
        return MissingMandatory;
      }
      if !writeOk {
        return WriteFailed;
      }
      db.AddEmployee(built.value);
      empID, name, gender, department, mobile := [], [], [], [], [];
      r := Submitted(built.value);
    }
  }
}
