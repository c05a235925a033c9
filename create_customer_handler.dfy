/** `CreateCustomerHandler`: stores a customer's profile, once per email. */
module CreateCustomerHandler {
  import opened Wrappers
  import opened Strings
  import opened Attributes
  import opened Models
  import opened Keys
  import opened DynamoTable
  import opened Responses

  /** The profile item `createCustomerRecord` writes for `customer`. */
  function ProfileItem(partitionKey: string, customer: Customer): (item: Item)
    ensures item.Keys == {"PK", "SK", "FirstName", "LastName", "Email", "PhoneNumber"}
    ensures KeyOf(item) == Some(Key(partitionKey, PROFILE))
    ensures AsS(item["FirstName"]) == customer.firstName && AsS(item["LastName"]) == customer.lastName
    ensures AsS(item["Email"]) == customer.email && AsS(item["PhoneNumber"]) == customer.phoneNumber
  {
    map[
      "PK" := S(partitionKey),
      "SK" := S(PROFILE),
      "FirstName" := StringAttr(customer.firstName),
      "LastName" := StringAttr(customer.lastName),
      "Email" := StringAttr(customer.email),
      "PhoneNumber" := StringAttr(customer.phoneNumber)]
  }

  /** Every field of the customer is non-null. */
  predicate FieldsGiven(customer: Customer)
  {
    && customer.firstName.Some? && customer.lastName.Some?
    && customer.email.Some? && customer.phoneNumber.Some?
  }

  /** The store accepts the profile exactly when no field of the customer is `null`. */
  lemma ProfileItemTyped(partitionKey: string, customer: Customer)
    ensures ItemTyped(ProfileItem(partitionKey, customer)) <==> FieldsGiven(customer)
  {
    var item := ProfileItem(partitionKey, customer);
    StringAttrTyped(customer.firstName);
    StringAttrTyped(customer.lastName);
    StringAttrTyped(customer.email);
    StringAttrTyped(customer.phoneNumber);
    assert item["FirstName"] == StringAttr(customer.firstName);
    assert item["LastName"] == StringAttr(customer.lastName);
    assert item["Email"] == StringAttr(customer.email);
    assert item["PhoneNumber"] == StringAttr(customer.phoneNumber);
  }

  /** `customerExists`: a profile is stored in the partition. */
  method CustomerExists(db: Table, partitionKey: string) returns (found: bool)
    ensures found <==> Key(partitionKey, PROFILE) in db.items
  {
    var r := db.GetItem(Key(partitionKey, PROFILE));
    found := r.Some?;
  }

  /** `createCustomerRecord`: builds the profile item and puts it; `stored` is
      false when the store refuses it. */
  method CreateCustomerRecord(db: Table, partitionKey: string, customer: Customer) returns (stored: bool)
    requires db.Valid()
    modifies db
    ensures db.Valid()
    ensures stored <==> FieldsGiven(customer)
    ensures stored ==> db.items == old(db.items)[Key(partitionKey, PROFILE) := ProfileItem(partitionKey, customer)]
    ensures !stored ==> db.items == old(db.items)
  {
    var item: Item := map[];
    item := item["PK" := S(partitionKey)];
    item := item["SK" := S(PROFILE)];
    item := item["FirstName" := StringAttr(customer.firstName)];
    item := item["LastName" := StringAttr(customer.lastName)];
    item := item["Email" := StringAttr(customer.email)];
    item := item["PhoneNumber" := StringAttr(customer.phoneNumber)];
    assert item == ProfileItem(partitionKey, customer);
    ProfileItemTyped(partitionKey, customer);
    stored := db.PutItem(item);
  }

  /** `handleRequest`: 400 when a profile already exists for the email, 201 and
      the profile stored when none does and every field is given, 500
      otherwise; only a 201 changes the table. */
  method HandleRequest(db: Table, customer: Customer) returns (resp: Response)
    requires db.Valid()
    modifies db
    ensures db.Valid()
    ensures var key := ProfileKey(customer.email);
      if key in old(db.items) then
        && resp == Response(400, Text(Concat("Customer with email ", customer.email) + " already exists."))
        && db.items == old(db.items)
      else if FieldsGiven(customer) then
        && resp == Response(201, Text(Concat("Customer with email ", customer.email) + " created successfully."))
        && db.items == old(db.items)[key := ProfileItem(key.pk, customer)]
      else
        && resp == Response(500, Text("Error creating customer"))
        && db.items == old(db.items)
  {
    var email := customer.email;
    var partitionKey := CustomerPartition(email);
    var found := CustomerExists(db, partitionKey);
    if found {
      return Response(400, Text(Concat("Customer with email ", email) + " already exists."));
    }
    var stored := CreateCustomerRecord(db, partitionKey, customer);
    if stored {
      resp := Response(201, Text(Concat("Customer with email ", email) + " created successfully."));
    } else {
      resp := Response(500, Text("Error creating customer"));
    }
  }
}
