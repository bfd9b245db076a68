/**
 * The records the screens receive from the rental API. Identifiers and amounts
 * are integers, dates are millisecond time values, statuses are strings.
 */
module Entities {

  datatype Tenant = Tenant(tenantId: int, name: string, contactInfo: string)

  datatype Unit = Unit(unitId: int, unitNumber: string, building: string, status: string)

  datatype Lease = Lease(leaseId: int, tenantId: int, unitId: int, startDate: int, endDate: int, rentAmount: int)

  datatype Payment = Payment(paymentId: int, tenantId: int, leaseId: int, amount: int, paymentDate: int, status: string)

  /** A response body kept in state by the screens that guard with `Array.isArray`:
      either an array of records or some other value. */
  datatype Fetched<T> = Array(items: seq<T>) | NotArray
}
