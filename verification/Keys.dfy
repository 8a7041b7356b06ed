/** Entity keys and the banks each role may sit at. */
module Keys {
  import opened Words

  datatype Role = Customer | Account | Merchant | Employer | Landlord | Client | Platform | Processor
                | Family | Business | Brokerage | Card | GeneralLedger

  datatype Bank = Internal | External

  datatype Key = Key(role: Role, bank: Bank, number: u64)

  predicate Allows(role: Role, bank: Bank) {
    match role
    case Customer | Account | Card | GeneralLedger => bank == Internal
    case Platform | Processor | Family => bank == External
    case _ => true
  }

  predicate ValidKey(k: Key) {
    k.number != 0 && Allows(k.role, k.bank)
  }
}
