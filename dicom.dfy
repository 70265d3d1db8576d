/**
 * A DICOM data set as the program sees it through its codec: a map from
 * data-element tags to elements. The binary encoding is not modelled.
 */
module Dicom {
  /** A data-element tag: its group and element numbers. */
  datatype Tag = Tag(group: nat, element: nat)

  /** Patient's Name, (0010,0010). */
  const PatientName: Tag := Tag(0x0010, 0x0010)

  /** Value representations; the program only ever writes PN (person name). */
  datatype VR = PN | OtherVR(code: string)

  datatype Element = Element(vr: VR, value: string)

  type Record = map<Tag, Element>

  /**
   * `put_element(InMemElement::new(PATIENT_NAME, VR::PN, new_name))`: the
   * patient-name element becomes a PN element holding the new name, added if
   * it was missing; every other element stays as it was.
   */
  function PutPatientName(r: Record, newName: string): (r': Record)
    ensures PatientName in r' && r'[PatientName] == Element(PN, newName)
    ensures r'.Keys == r.Keys + {PatientName}
    ensures forall t :: t in r && t != PatientName ==> r'[t] == r[t]
  {
    r[PatientName := Element(PN, newName)]
  }
}
