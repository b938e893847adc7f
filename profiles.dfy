/** The profile record that the profile service stores and the profile page
    edits, with the demonstration profile the store starts with.
    Timestamps are milliseconds since the epoch. */
module Profiles {

  import opened Wrappers

  datatype PersonalInfo = PersonalInfo(
    firstName: string,
    lastName: string,
    email: string,
    phone: string,
    address: string,
    city: string,
    state: string,
    zipCode: string,
    linkedIn: string,
    website: string,
    summary: string)

  datatype Experience = Experience(
    id: int,
    title: string,
    company: string,
    location: string,
    startDate: string,
    endDate: string,
    description: string)

  datatype Education = Education(
    id: int,
    degree: string,
    school: string,
    location: string,
    startDate: string,
    endDate: string,
    gpa: string,
    description: string)

  datatype Project = Project(
    id: int,
    title: string,
    description: string,
    technologies: seq<string>,
    url: string,
    startDate: string,
    endDate: string)

  datatype Certification = Certification(
    id: int,
    name: string,
    issuer: string,
    issueDate: string,
    expiryDate: string,
    credentialId: string)

  /** A stored profile. `createdAt` is absent on a profile that the first
      save of an unknown user created without one. */
  datatype Profile = Profile(
    Id: int,
    userId: int,
    personalInfo: PersonalInfo,
    education: seq<Education>,
    experience: seq<Experience>,
    skills: seq<string>,
    projects: seq<Project>,
    certifications: seq<Certification>,
    createdAt: Option<int>,
    updatedAt: Option<int>)

  const BlankPersonalInfo := PersonalInfo("", "", "", "", "", "", "", "", "", "", "")

  predicate IsBlankPersonalInfo(p: PersonalInfo) {
    && p.firstName == "" && p.lastName == "" && p.email == "" && p.phone == ""
    && p.address == "" && p.city == "" && p.state == "" && p.zipCode == ""
    && p.linkedIn == "" && p.website == "" && p.summary == ""
  }

  /** The demonstration profile of user 3. */
  const DemoProfile := Profile(
    1, 3,
    PersonalInfo(
      "Demo", "User", "demo@autocv.com", "(555) 123-4567", "123 Tech Street",
      "San Francisco", "CA", "94105", "linkedin.com/in/demouser", "demouser.dev",
      "Full-stack developer with 5+ years of experience building scalable web applications using modern technologies. Passionate about creating efficient, user-friendly solutions that drive business growth."),
    [Education(
      1, "Bachelor of Science in Computer Science", "University of California, Berkeley",
      "Berkeley, CA", "2016-08", "2020-05", "3.8",
      "Relevant coursework: Data Structures, Algorithms, Software Engineering, Database Systems, Web Development")],
    [Experience(
       1, "Senior Full Stack Developer", "TechCorp Solutions", "San Francisco, CA",
       "2022-01", "present",
       "Led development of enterprise web applications using React, Node.js, and PostgreSQL. Improved application performance by 40% through code optimization and database indexing. Mentored junior developers and established coding standards."),
     Experience(
       2, "Frontend Developer", "StartupHub Inc", "Palo Alto, CA", "2020-06", "2021-12",
       "Developed responsive web applications using React and TypeScript. Collaborated with UX designers to implement pixel-perfect designs. Integrated RESTful APIs and implemented real-time features using WebSockets.")],
    ["JavaScript", "TypeScript", "React", "Node.js", "Python", "PostgreSQL", "MongoDB",
     "AWS", "Docker", "Git", "HTML/CSS", "Tailwind CSS", "Express.js", "REST APIs", "GraphQL"],
    [Project(
       1, "E-commerce Platform",
       "Built a full-stack e-commerce platform with React, Node.js, and PostgreSQL. Features include user authentication, product catalog, shopping cart, and payment integration.",
       ["React", "Node.js", "PostgreSQL", "Stripe API"],
       "https://github.com/demo/ecommerce-platform", "2023-03", "2023-08"),
     Project(
       2, "Task Management App",
       "Developed a collaborative task management application with real-time updates, drag-and-drop functionality, and team collaboration features.",
       ["React", "Firebase", "Material-UI", "WebSocket"],
       "https://github.com/demo/task-manager", "2022-09", "2022-12")],
    [Certification(
       1, "AWS Certified Developer - Associate", "Amazon Web Services", "2023-06", "2026-06",
       "AWS-CDA-123456"),
     Certification(
       2, "Google Cloud Professional Developer", "Google Cloud", "2022-11", "2024-11",
       "GCP-PD-789012")],
    Some(1704877200000),   // 2024-01-10T09:00:00Z
    Some(1706196600000))   // 2024-01-25T15:30:00Z
}
